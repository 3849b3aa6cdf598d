/** How reconciliation settles each attempt, told in the columns of the tables and the provider's answers. */
module ReconciliationLaws {
  import opened Common
  import opened Records
  import opened Reservations
  import opened ReservationFacts
  import opened Payments
  import opened Retail
  import opened Invariant
  import opened RetailSteps
  import opened Reconciliation
  import opened ReconciliationFacts
  import opened ServiceLaws

  // ---------- Before the provider's answer counts ----------

  /** The provider knows the attempt's payment and answers about that payment. */
  ghost predicate Answered(db: Db, a: nat, provider: Provider) {
    && a in db.attempts && db.attempts[a].providerPaymentId != "" && db.attempts[a].providerPaymentId in provider
    && provider[db.attempts[a].providerPaymentId].paymentId == db.attempts[a].providerPaymentId
  }

  ghost function Answer(db: Db, a: nat, provider: Provider): ExternalState
    requires Answered(db, a, provider)
  {
    provider[db.attempts[a].providerPaymentId]
  }

  /** Without an answer about the payment, reconciling is refused for the first reason that applies. */
  lemma UnansweredIs(db: Db, a: nat, provider: Provider)
    requires !Answered(db, a, provider)
    ensures ReconcileSpec(db, a, provider)
         == if a !in db.attempts then Err(DoesNotExist)
            else if db.attempts[a].providerPaymentId == "" then Err(InvalidPaymentAttempt)
            else if db.attempts[a].providerPaymentId !in provider then Err(ProviderFailure)
            else Err(PaymentReconciliationConflict)
  {
    hide ApplySpec;
  }

  /** A decided attempt never changes; the answer is accepted when it does not contradict the decision:
      a success with the same transaction id, as far as both sides know one, or a failure of an attempt
      that failed or was cancelled. */
  lemma DecidedIs(db: Db, a: nat, provider: Provider)
    requires Answered(db, a, provider) && db.attempts[a].status != AttemptStatus.Pending
    ensures var row, answer := db.attempts[a], Answer(db, a, provider);
            var agrees :=
              match answer.status
              case Pending => true
              case Succeeded =>
                && row.status == AttemptStatus.Succeeded
                && (answer.transactionId == None || answer.transactionId.value == "" || row.providerTransactionId == ""
                    || answer.transactionId.value == row.providerTransactionId)
              case Failed => row.status == AttemptStatus.Failed || row.status == AttemptStatus.Cancelled;
            ReconcileSpec(db, a, provider) == if agrees then Ok(db) else Err(PaymentReconciliationConflict)
  {
    hide CompleteSpec, FailSpec;
  }

  // ---------- Settling a pending attempt ----------

  /** The order has lines, its RESERVED rows have the deadline d, and they add up to each line's quantity. */
  ghost predicate HeldUntil(db: Db, o: nat, d: int) {
    && (exists l :: l in db.lines && db.lines[l].order == o)
    && (forall i :: i in db.allocations && db.allocations[i].order == o && db.allocations[i].status == Reserved ==>
          db.allocations[i].reservedUntil == Some(d))
    && (forall l :: l in db.lines && db.lines[l].order == o ==> LineHeldUnits(db, l) == db.lines[l].quantity)
  }

  /** Every line of the order is held in full, until one deadline that has not passed. */
  ghost predicate HeldUntilLater(db: Db, o: nat) {
    exists d: int :: db.now < d && HeldUntil(db, o, d)
  }

  lemma HeldUntilLaterIs(db: Db, o: nat)
    ensures HeldInFull(db, o) <==> HeldUntilLater(db, o)
  {
    hide Covered, HeldUntil;
    forall d: int ensures Covered(db, o, Some(d)) <==> HeldUntil(db, o, d) {
      HeldUntilIs(db, o, d);
    }
    if d: int :| d > db.now && Covered(db, o, Some(d)) {
      assert HeldUntil(db, o, d);
    }
    if d: int :| db.now < d && HeldUntil(db, o, d) {
      assert Covered(db, o, Some(d));
    }
  }

  lemma HeldUntilIs(db: Db, o: nat, d: int)
    ensures Covered(db, o, Some(d)) <==> HeldUntil(db, o, d)
  {
    hide Covered, LineHeldUnits;
    CoveredIs(db, o, Some(d));
  }

  ghost predicate IsDraft(db: Db, o: nat) {
    o in db.orders && db.orders[o].status == Draft
  }

  /** No transaction id, or one with a character that is not blank. */
  ghost predicate Recordable(transactionId: Option<string>) {
    transactionId.Some? ==> exists i :: 0 <= i < |transactionId.value| && !IsBlank(transactionId.value[i])
  }

  /** The provider reports success for a draft that is held in full, under an id that can be recorded. */
  ghost predicate Succeeds(db: Db, a: nat, provider: Provider) {
    && Answered(db, a, provider) && Answer(db, a, provider).status == ExternalStatus.Succeeded
    && IsDraft(db, db.attempts[a].order) && HeldUntilLater(db, db.attempts[a].order)
    && Recordable(Answer(db, a, provider).transactionId)
  }

  /** The provider reports failure for a draft. */
  ghost predicate Fails(db: Db, a: nat, provider: Provider) {
    Answered(db, a, provider) && Answer(db, a, provider).status == ExternalStatus.Failed && IsDraft(db, db.attempts[a].order)
  }

  /** The provider has not decided yet. */
  ghost predicate Waits(db: Db, a: nat, provider: Provider) {
    Answered(db, a, provider) && Answer(db, a, provider).status == ExternalStatus.Pending
  }

  /** Only the attempt, its order and that order's allocations differ. */
  ghost predicate OthersKept(db: Db, db': Db, a: nat) {
    && a in db.attempts
    && db' == db.(orders := db'.orders, allocations := db'.allocations, attempts := db'.attempts)
    && db'.orders.Keys == db.orders.Keys && db'.attempts.Keys == db.attempts.Keys && db'.allocations.Keys == db.allocations.Keys
    && (forall p :: p in db.orders && p != db.attempts[a].order ==> db'.orders[p] == db.orders[p])
    && (forall b :: b in db.attempts && b != a ==> db'.attempts[b] == db.attempts[b])
    && (forall i :: i in db.allocations && db.allocations[i].order != db.attempts[a].order ==> db'.allocations[i] == db.allocations[i])
  }

  /** The order is PLACED, every row it held is held for good, and the attempt SUCCEEDED. */
  ghost predicate IsPaidFor(db: Db, db': Db, a: nat) {
    && OthersKept(db, db', a) && db.attempts[a].order in db.orders
    && db'.orders[db.attempts[a].order] == db.orders[db.attempts[a].order].(status := Placed)
    && db'.attempts[a].status == AttemptStatus.Succeeded
    && db'.attempts[a] == db.attempts[a].(status := AttemptStatus.Succeeded, providerTransactionId := db'.attempts[a].providerTransactionId)
    && forall i :: i in db.allocations && db.allocations[i].order == db.attempts[a].order ==>
         db'.allocations[i]
         == if db.allocations[i].status == Reserved then db.allocations[i].(reservedUntil := None) else db.allocations[i]
  }

  /** The order stays as it was and holds nothing, and the attempt FAILED. */
  ghost predicate IsReleased(db: Db, db': Db, a: nat) {
    && OthersKept(db, db', a) && db'.orders == db.orders
    && db'.attempts[a] == db.attempts[a].(status := AttemptStatus.Failed)
    && forall i :: i in db.allocations && db.allocations[i].order == db.attempts[a].order ==>
         db'.allocations[i]
         == if db.allocations[i].status == Reserved then db.allocations[i].(status := AllocationStatus.Cancelled) else db.allocations[i]
  }

  /** A pending attempt that the provider answers about is settled exactly when its order is still a
      draft, and for a success held in full with a usable id: a success places the order, a failure
      releases what it held. While the provider waits, nothing changes. */
  lemma SettlingIsExact(db: Db, a: nat, provider: Provider)
    requires Inv(db) && Answered(db, a, provider) && db.attempts[a].status == AttemptStatus.Pending
    ensures ReconcileSpec(db, a, provider).Ok? <==>
              Succeeds(db, a, provider) || Fails(db, a, provider) || Waits(db, a, provider)
    ensures Succeeds(db, a, provider) ==>
              && IsPaidFor(db, ReconcileSpec(db, a, provider).value, a)
              && ReconcileSpec(db, a, provider).value.attempts[a].providerTransactionId
                 == match Answer(db, a, provider).transactionId
                    case None => db.attempts[a].providerTransactionId
                    case Some(id) => Strip(id)
    ensures Fails(db, a, provider) ==> IsReleased(db, ReconcileSpec(db, a, provider).value, a)
    ensures Waits(db, a, provider) ==> ReconcileSpec(db, a, provider).value == db
  {
    hide Inv, CompleteSpec, FailSpec, HeldUntilLater, HeldInFull, OthersKept, Recordable, IsPaidFor, IsReleased;
    var answer := Answer(db, a, provider);
    match answer.status
    case Pending =>
    case Succeeded =>
      PaymentCompletesExactly(db, a, answer.transactionId);
      HeldUntilLaterIs(db, db.attempts[a].order);
      RecordableIs(answer.transactionId);
      if CompleteSpec(db, a, answer.transactionId).Ok? {
        PaidForIs(db, a, answer.transactionId);
      }
    case Failed =>
      FailingIs(db, a);
  }

  lemma RecordableIs(transactionId: Option<string>)
    ensures Recordable(transactionId) <==> (transactionId.Some? ==> !AllBlank(transactionId.value))
  {
    hide IsBlank;
  }

  lemma FailingIs(db: Db, a: nat)
    requires Inv(db) && a in db.attempts && db.attempts[a].status == AttemptStatus.Pending
    ensures FailSpec(db, a).Ok? <==> IsDraft(db, db.attempts[a].order)
    ensures FailSpec(db, a).Ok? ==> IsReleased(db, FailSpec(db, a).value, a)
  {
    hide Inv, OthersKept, WithoutTemporary;
    FailUnfolds(db, a);
    if FailSpec(db, a).Ok? {
      ReleasedIs(db, a);
    }
  }

  lemma FailUnfolds(db: Db, a: nat)
    requires Inv(db) && a in db.attempts && db.attempts[a].status == AttemptStatus.Pending
    ensures FailSpec(db, a).Ok? <==> IsDraft(db, db.attempts[a].order)
  {
    hide Tables, StockOk, OneRowPerLineAndBatch, OrdersOk, CancelMatching;
    assert AttemptOk(db, a);
  }

  lemma ReleasedIs(db: Db, a: nat)
    requires Inv(db) && FailSpec(db, a).Ok?
    ensures IsReleased(db, FailSpec(db, a).value, a)
  {
    hide Tables, StockOk, OneRowPerLineAndBatch, PaymentsOk, Covered, AllOrNothing, CancelMatching;
    assert OrderOk(db, db.attempts[a].order);
    FailedRows(db, db.attempts[a].order);
  }

  lemma FailedRows(db: Db, o: nat)
    requires AllOrNothing(db, o)
    ensures var t := CancelMatching(db.allocations, TemporaryBy(o));
            t.Keys == db.allocations.Keys
            && forall i :: i in db.allocations ==>
                 t[i] == if db.allocations[i].order == o && db.allocations[i].status == Reserved
                         then db.allocations[i].(status := AllocationStatus.Cancelled) else db.allocations[i]
  {
    hide LineHeld;
  }

  lemma PaidForIs(db: Db, a: nat, transactionId: Option<string>)
    requires Inv(db) && CompleteSpec(db, a, transactionId).Ok?
    ensures a in db.attempts && a in CompleteSpec(db, a, transactionId).value.attempts
    ensures IsPaidFor(db, CompleteSpec(db, a, transactionId).value, a)
    ensures CompleteSpec(db, a, transactionId).value.attempts[a].providerTransactionId
         == match transactionId case None => db.attempts[a].providerTransactionId case Some(id) => Strip(id)
  {
    hide Inv, Covered, CompleteSpec, PlacePaidSpec, Strip;
    PaidOrdersWereHeldInFull(db, a, transactionId, CompleteSpec(db, a, transactionId).value);
    var d: int :| d > db.now && Covered(db, db.attempts[a].order, Some(d));
    CompletedAttempt(db, a, transactionId);
    CompletedIsPlaced(db, a, transactionId);
    PlacedRowsAre(db, db.attempts[a].order, d);
  }

  lemma CompletedIsPlaced(db: Db, a: nat, transactionId: Option<string>)
    requires CompleteSpec(db, a, transactionId).Ok?
    ensures a in db.attempts && db.attempts[a].order in db.orders && PlacePaidSpec(db, db.attempts[a].order).Ok?
    ensures var db' := CompleteSpec(db, a, transactionId).value;
            db' == PlacePaidSpec(db, db.attempts[a].order).value.(attempts := db'.attempts)
  {
    hide PlacePaidSpec, Strip;
  }

  lemma PlacedRowsAre(db: Db, o: nat, d: int)
    requires d > db.now && Covered(db, o, Some(d)) && o in db.orders && PlacePaidSpec(db, o).Ok?
    ensures var placed := PlacePaidSpec(db, o).value;
            && placed == db.(orders := db.orders[o := db.orders[o].(status := Placed)], allocations := placed.allocations)
            && placed.allocations.Keys == db.allocations.Keys
            && forall i :: i in db.allocations ==>
                 placed.allocations[i] == if db.allocations[i].order == o && db.allocations[i].status == Reserved
                                          then db.allocations[i].(reservedUntil := None) else db.allocations[i]
  {
    hide LineHeld;
  }

  // ---------- The job ----------

  /** What the job does with a pending attempt. */
  datatype Verdict = Paid | Released | Waiting | Unresolved | Refused

  ghost function VerdictOf(db: Db, a: nat, provider: Provider): Verdict {
    if a in db.attempts && db.attempts[a].providerPaymentId == "" then Unresolved
    else if Succeeds(db, a, provider) then Paid
    else if Fails(db, a, provider) then Released
    else if Waits(db, a, provider) then Waiting
    else Refused
  }

  /** A pass over a pending attempt, and whether it raised. */
  lemma PassIs(db: Db, a: nat, provider: Provider)
    requires Inv(db) && a in db.attempts && db.attempts[a].status == AttemptStatus.Pending
    ensures var db' := PassSpec(db, a, provider);
            match VerdictOf(db, a, provider)
            case Paid => IsPaidFor(db, db', a)
            case Released => IsReleased(db, db', a)
            case _ => db' == db
    ensures IsChecked(db, a) <==> VerdictOf(db, a, provider) != Unresolved
    ensures IsChecked(db, a) ==> (ReconcileSpec(db, a, provider).Err? <==> VerdictOf(db, a, provider) == Refused)
  {
    hide Inv, ReconcileSpec, Succeeds, Fails, Waits, IsPaidFor, IsReleased;
    VerdictsExclude(db, a, provider);
    if Answered(db, a, provider) {
      SettlingIsExact(db, a, provider);
    } else {
      UnansweredIs(db, a, provider);
    }
  }

  lemma VerdictsExclude(db: Db, a: nat, provider: Provider)
    ensures Succeeds(db, a, provider) || Fails(db, a, provider) || Waits(db, a, provider) ==>
              Answered(db, a, provider)
    ensures !(Succeeds(db, a, provider) && Fails(db, a, provider))
    ensures !(Waits(db, a, provider) && (Succeeds(db, a, provider) || Fails(db, a, provider)))
  {
  }

  /** In r the attempt has succeeded, and its order is PLACED and holds its rows for good. */
  ghost predicate EndsPaid(db: Db, r: Db, a: nat) {
    && a in db.attempts && a in r.attempts && db.attempts[a].order in r.orders
    && r.attempts[a].status == AttemptStatus.Succeeded && r.orders[db.attempts[a].order].status == Placed
    && forall i :: i in r.allocations && r.allocations[i].order == db.attempts[a].order && r.allocations[i].status == Reserved ==>
         r.allocations[i].reservedUntil == None
  }

  /** In r the attempt has failed, and its order is still a draft and holds nothing. */
  ghost predicate EndsReleased(db: Db, r: Db, a: nat) {
    && a in db.attempts && a in r.attempts && db.attempts[a].order in r.orders
    && r.attempts[a] == db.attempts[a].(status := AttemptStatus.Failed) && r.orders[db.attempts[a].order].status == Draft
    && forall i :: i in r.allocations && r.allocations[i].order == db.attempts[a].order ==> r.allocations[i].status != Reserved
  }

  /** In r the attempt, its order and the order's rows are as they were. */
  ghost predicate EndsUnchanged(db: Db, r: Db, a: nat) {
    && a in db.attempts && a in r.attempts && r.attempts[a] == db.attempts[a]
    && db.attempts[a].order in db.orders && db.attempts[a].order in r.orders
    && r.orders[db.attempts[a].order] == db.orders[db.attempts[a].order]
    && forall i :: i in db.allocations && db.allocations[i].order == db.attempts[a].order ==>
         i in r.allocations && r.allocations[i] == db.allocations[i]
  }

  /** The job settles each pending attempt by its own order and its own answer, whatever it does with
      the others. */
  lemma JobSettlesEach(db: Db, provider: Provider, a: nat)
    requires Inv(db) && a in db.attempts && db.attempts[a].status == AttemptStatus.Pending
    ensures var r := BatchSpec(db, PendingIds(db, db.nextAttempt), provider);
            match VerdictOf(db, a, provider)
            case Paid => EndsPaid(db, r, a)
            case Released => EndsReleased(db, r, a)
            case _ => EndsUnchanged(db, r, a)
  {
    hide Inv, BatchSpec, PassSpec, VerdictOf, EndsPaid, EndsReleased, EndsUnchanged, IsPaidFor, IsReleased, AgreeOn;
    var ids := PendingIds(db, db.nextAttempt);
    var r := BatchSpec(db, ids, provider);
    AttemptIsSelected(db, a);
    BatchIsAsIfAlone(db, ids, provider);
    assert Handles(db, ids, a, db.attempts[a].order);
    PassIs(db, a, provider);
    VerdictNeedsDraft(db, a, provider);
    EndsAsItPassed(db, PassSpec(db, a, provider), r, a);
  }

  lemma AttemptIsSelected(db: Db, a: nat)
    requires Inv(db) && a in db.attempts && db.attempts[a].status == AttemptStatus.Pending
    ensures a in PendingIds(db, db.nextAttempt) && AttemptsApart(db.attempts) && db.attempts[a].order in db.orders
    ensures IsPendingRetail(db, a)
  {
    hide StockOk, OneRowPerLineAndBatch, OrdersOk;
    assert AttemptOk(db, a) && KeysOk(db);
  }

  /** The job selects exactly the pending attempts, once each, in key order. */
  lemma SelectedAre(db: Db)
    requires Inv(db)
    ensures forall a: nat :: a in PendingIds(db, db.nextAttempt) <==> a in db.attempts && db.attempts[a].status == AttemptStatus.Pending
    ensures DistinctPending(db, PendingIds(db, db.nextAttempt))
  {
    hide Inv, IsPendingRetail;
    var ids := PendingIds(db, db.nextAttempt);
    forall a: nat ensures a in ids <==> a in db.attempts && db.attempts[a].status == AttemptStatus.Pending {
      if a in ids {
        PendingAttempt(db, a);
      } else if a in db.attempts && db.attempts[a].status == AttemptStatus.Pending {
        AttemptIsSelected(db, a);
      }
    }
    assert forall i :: 0 <= i < |ids| ==> ids[i] in ids;
  }

  lemma VerdictNeedsDraft(db: Db, a: nat, provider: Provider)
    ensures VerdictOf(db, a, provider) == Released ==> a in db.attempts && IsDraft(db, db.attempts[a].order)
  {
  }

  lemma EndsAsItPassed(db: Db, passed: Db, r: Db, a: nat)
    requires a in db.attempts && db.attempts[a].order in db.orders && AgreeOn(r, passed, a)
    ensures IsPaidFor(db, passed, a) ==> EndsPaid(db, r, a)
    ensures IsReleased(db, passed, a) && IsDraft(db, db.attempts[a].order) ==> EndsReleased(db, r, a)
    ensures passed == db ==> EndsUnchanged(db, r, a)
  {
  }

  ghost function Tally(db: Db, ids: seq<nat>, provider: Provider, v: Verdict): nat {
    if ids == [] then 0
    else Tally(db, ids[..|ids| - 1], provider, v) + (if VerdictOf(db, ids[|ids| - 1], provider) == v then 1 else 0)
  }

  /** Before its turn, an attempt of the batch still has the verdict it had at the start. */
  lemma VerdictStays(db: Db, ids: seq<nat>, provider: Provider, c: nat)
    requires Inv(db) && c !in ids && c in db.attempts && db.attempts[c].status == AttemptStatus.Pending
    ensures var r := BatchSpec(db, ids, provider);
            && c in r.attempts && r.attempts[c] == db.attempts[c]
            && VerdictOf(r, c, provider) == VerdictOf(db, c, provider)
  {
    hide Inv, BatchSpec, PassSpec, VerdictOf, AgreeOn;
    AttemptIsSelected(db, c);
    BatchFramesAttempt(db, ids, provider, c);
    BatchIsAsIfAlone(db, ids, provider);
    BatchKeepsInv(db, ids, provider);
    var r := BatchSpec(db, ids, provider);
    AloneSoFar(db, ids, provider, r, c);
    VerdictAgrees(r, db, c, provider);
  }

  lemma AloneSoFar(db: Db, ids: seq<nat>, provider: Provider, r: Db, c: nat)
    requires AttemptsApart(db.attempts) && AsIfAlone(db, ids, provider, r)
    requires c !in ids && c in db.attempts && db.attempts[c].status == AttemptStatus.Pending && r.attempts[c] == db.attempts[c]
    ensures AgreeOn(r, db, c)
  {
    hide AgreeOnOrder, PassSpec;
    assert !Handled(db, ids, db.attempts[c].order);
  }

  lemma VerdictAgrees(r: Db, db: Db, c: nat, provider: Provider)
    requires Inv(r) && Inv(db) && AgreeOn(r, db, c)
    requires c in db.attempts && db.attempts[c].status == AttemptStatus.Pending
    ensures VerdictOf(r, c, provider) == VerdictOf(db, c, provider)
  {
    hide Inv, CompleteSpec, FailSpec, AgreeOnOrder, HeldUntilLater, Recordable;
    if Answered(db, c, provider) {
      SettlingIsExact(r, c, provider);
      SettlingIsExact(db, c, provider);
      CompleteAgrees(r, db, c, Answer(db, c, provider).transactionId);
      FailAgrees(r, db, c);
    }
  }

  /** The counters: how many attempts were selected for each verdict. */
  lemma {:induction false} CountersAre(db: Db, ids: seq<nat>, provider: Provider)
    requires Inv(db) && DistinctPending(db, ids)
    ensures var paid, released := Tally(db, ids, provider, Paid), Tally(db, ids, provider, Released);
            var waiting, refused := Tally(db, ids, provider, Waiting), Tally(db, ids, provider, Refused);
            var unresolved := Tally(db, ids, provider, Unresolved);
            && BatchCounts(db, ids, provider)
               == Summary(0, paid + released + waiting + refused, paid, released, waiting, 0, unresolved, refused)
            && paid + released + waiting + refused + unresolved == |ids|
  {
    hide Inv, BatchSpec, PassSpec, VerdictOf, ReconcileSpec, IsPendingRetail, CountStatus;
    if ids != [] {
      var n := |ids| - 1;
      var before, c := ids[..n], ids[n];
      var r := BatchSpec(db, before, provider);
      CountersAre(db, before, provider);
      PendingAttempt(db, c);
      VerdictStays(db, before, provider, c);
      BatchKeepsInv(db, before, provider);
      TurnIsCounted(BatchCounts(db, before, provider), r, c, provider);
    }
  }

  lemma PendingAttempt(db: Db, c: nat)
    requires IsPendingRetail(db, c)
    ensures c in db.attempts && db.attempts[c].status == AttemptStatus.Pending
  {
  }

  lemma TurnIsCounted(s: Summary, r: Db, c: nat, provider: Provider)
    requires Inv(r) && c in r.attempts && r.attempts[c].status == AttemptStatus.Pending
    ensures PassCounts(s, r, c, provider)
         == match VerdictOf(r, c, provider)
            case Paid => s.(checked := s.checked + 1, succeeded := s.succeeded + 1)
            case Released => s.(checked := s.checked + 1, failed := s.failed + 1)
            case Waiting => s.(checked := s.checked + 1, pending := s.pending + 1)
            case Unresolved => s.(unresolved := s.unresolved + 1)
            case Refused => s.(checked := s.checked + 1, errors := s.errors + 1)
  {
    hide Inv, PassSpec, VerdictOf, ReconcileSpec;
    PassIs(r, c, provider);
  }
}
