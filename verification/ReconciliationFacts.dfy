/**
 Batch reconciliation keeps the invariant, leaves every attempt as if it had been handled alone, and
 so does not depend on the processing order; and what its counters mean.
 */
module ReconciliationFacts {
  import opened Common
  import opened Records
  import opened Reservations
  import opened Payments
  import opened Retail
  import opened Invariant
  import opened RetailSteps
  import opened Reconciliation

  // ---------- The invariant ----------

  lemma ReconcileKeepsInv(db: Db, a: nat, provider: Provider, db': Db)
    requires Inv(db) && ReconcileSpec(db, a, provider) == Ok(db')
    ensures Inv(db')
  {
    hide Inv, CompleteSpec, FailSpec;
    var external := provider[db.attempts[a].providerPaymentId];
    if external.status.Succeeded? && db.attempts[a].status.Pending? {
      CompleteKeepsInv(db, a, external.transactionId, db');
    } else if external.status.Failed? && db.attempts[a].status.Pending? {
      FailKeepsInv(db, a, db');
    }
  }

  lemma PassKeepsInv(db: Db, a: nat, provider: Provider)
    requires Inv(db)
    ensures Inv(PassSpec(db, a, provider))
  {
    hide Inv, ReconcileSpec;
    if IsChecked(db, a) && ReconcileSpec(db, a, provider).Ok? {
      ReconcileKeepsInv(db, a, provider, ReconcileSpec(db, a, provider).value);
    }
  }

  lemma {:induction false} BatchKeepsInv(db: Db, ids: seq<nat>, provider: Provider)
    requires Inv(db)
    ensures Inv(BatchSpec(db, ids, provider))
  {
    hide Inv;
    if ids != [] {
      BatchKeepsInv(db, ids[..|ids| - 1], provider);
      PassKeepsInv(BatchSpec(db, ids[..|ids| - 1], provider), ids[|ids| - 1], provider);
    }
  }

  // ---------- What one pass writes ----------

  /** Only the attempt, its order and that order's allocations can differ, and no row appears,
      disappears or moves to another order. */
  ghost predicate OnlyTouches(db: Db, db': Db, a: nat)
    requires a in db.attempts
  {
    var o := db.attempts[a].order;
    && db' == db.(orders := db'.orders, allocations := db'.allocations, attempts := db'.attempts)
    && db'.attempts.Keys == db.attempts.Keys
    && db'.orders.Keys == db.orders.Keys
    && db'.allocations.Keys == db.allocations.Keys
    && db'.attempts[a].order == o
    && db'.attempts[a].providerPaymentId == db.attempts[a].providerPaymentId
    && (forall b :: b in db.attempts && b != a ==> db'.attempts[b] == db.attempts[b])
    && (forall p :: p in db.orders && p != o ==> db'.orders[p] == db.orders[p])
    && (forall i :: i in db.allocations ==>
          db'.allocations[i].order == db.allocations[i].order
          && (db.allocations[i].order != o ==> db'.allocations[i] == db.allocations[i]))
  }

  lemma CompleteTouches(db: Db, a: nat, transactionId: Option<string>, db': Db)
    requires CompleteSpec(db, a, transactionId) == Ok(db')
    ensures a in db.attempts && OnlyTouches(db, db', a)
  {
    hide Strip;
  }

  lemma FailTouches(db: Db, a: nat, db': Db)
    requires FailSpec(db, a) == Ok(db')
    ensures a in db.attempts && OnlyTouches(db, db', a)
  {
  }

  lemma PassTouches(db: Db, a: nat, provider: Provider)
    ensures a in db.attempts ==> OnlyTouches(db, PassSpec(db, a, provider), a)
    ensures a !in db.attempts || !db.attempts[a].status.Pending? ==> PassSpec(db, a, provider) == db
  {
    hide CompleteSpec, FailSpec;
    if IsChecked(db, a) && ReconcileSpec(db, a, provider).Ok? {
      var external := provider[db.attempts[a].providerPaymentId];
      var db' := ReconcileSpec(db, a, provider).value;
      if external.status.Succeeded? {
        CompleteTouches(db, a, external.transactionId, db');
      } else if external.status.Failed? {
        FailTouches(db, a, db');
      }
    }
  }

  // ---------- What one pass reads ----------

  /** The order row and the allocations of order o are the same in both states. */
  ghost predicate AgreeOnOrder(db1: Db, db2: Db, o: nat) {
    && (o in db1.orders <==> o in db2.orders)
    && (o in db1.orders ==> db1.orders[o] == db2.orders[o])
    && SameAllocationsFor(db1.allocations, db2.allocations, o)
  }

  /** Everything that matters for attempt a is the same in both states. */
  ghost predicate AgreeOn(db1: Db, db2: Db, a: nat) {
    && db1.now == db2.now
    && (a in db1.attempts <==> a in db2.attempts)
    && (a in db1.attempts ==> db1.attempts[a] == db2.attempts[a] && AgreeOnOrder(db1, db2, db1.attempts[a].order))
  }

  lemma PromotionAgrees(db1: Db, db2: Db, o: nat)
    requires db1.now == db2.now && SameAllocationsFor(db1.allocations, db2.allocations, o)
    ensures MakePermanentSpec(db1, o).Ok? <==> MakePermanentSpec(db2, o).Ok?
    ensures MakePermanentSpec(db1, o).Ok? ==>
              SameAllocationsFor(MakePermanentSpec(db1, o).value.allocations, MakePermanentSpec(db2, o).value.allocations, o)
  {
    forall i | i in db1.allocations && ActiveFor(db1.allocations[i], o, db1.now)
      ensures i in db2.allocations && db2.allocations[i] == db1.allocations[i]
    {
    }
    forall i | i in db2.allocations && ActiveFor(db2.allocations[i], o, db2.now)
      ensures i in db1.allocations && db2.allocations[i] == db1.allocations[i]
    {
    }
  }

  lemma CompleteAgrees(db1: Db, db2: Db, a: nat, transactionId: Option<string>)
    requires AgreeOn(db1, db2, a)
    ensures CompleteSpec(db1, a, transactionId).Ok? <==> CompleteSpec(db2, a, transactionId).Ok?
    ensures CompleteSpec(db1, a, transactionId).Ok? ==>
              AgreeOn(CompleteSpec(db1, a, transactionId).value, CompleteSpec(db2, a, transactionId).value, a)
  {
    hide Strip, SameAllocationsFor, MakePermanentSpec;
    if a in db1.attempts && db1.attempts[a].order in db1.orders {
      PromotionAgrees(db1, db2, db1.attempts[a].order);
      PromotionKeepsRest(db1, db1.attempts[a].order);
      PromotionKeepsRest(db2, db1.attempts[a].order);
    }
  }

  lemma CancelledHoldsAgree(t1: Allocations, t2: Allocations, o: nat)
    requires SameAllocationsFor(t1, t2, o)
    ensures SameAllocationsFor(CancelMatching(t1, TemporaryBy(o)), CancelMatching(t2, TemporaryBy(o)), o)
  {
  }

  lemma FailAgrees(db1: Db, db2: Db, a: nat)
    requires AgreeOn(db1, db2, a)
    ensures FailSpec(db1, a).Ok? <==> FailSpec(db2, a).Ok?
    ensures FailSpec(db1, a).Ok? ==> AgreeOn(FailSpec(db1, a).value, FailSpec(db2, a).value, a)
  {
    hide SameAllocationsFor, CancelMatching;
    if a in db1.attempts {
      CancelledHoldsAgree(db1.allocations, db2.allocations, db1.attempts[a].order);
    }
  }

  /** A pass depends on nothing but the attempt, its order and that order's allocations. */
  lemma PassAgrees(db1: Db, db2: Db, a: nat, provider: Provider)
    requires AgreeOn(db1, db2, a)
    ensures AgreeOn(PassSpec(db1, a, provider), PassSpec(db2, a, provider), a)
  {
    hide CompleteSpec, FailSpec, AgreeOnOrder;
    if IsChecked(db1, a) && db1.attempts[a].providerPaymentId in provider {
      var external := provider[db1.attempts[a].providerPaymentId];
      CompleteAgrees(db1, db2, a, external.transactionId);
      FailAgrees(db1, db2, a);
    }
  }

  /** A second pass over the same attempt changes nothing. */
  lemma PassTwice(db: Db, a: nat, provider: Provider)
    ensures PassSpec(PassSpec(db, a, provider), a, provider) == PassSpec(db, a, provider)
  {
    hide PlacePaidSpec, Strip;
    if IsChecked(db, a) && ReconcileSpec(db, a, provider).Ok? && IsCompleted(db, a, provider) {
      CompletedAttempt(db, a, provider[db.attempts[a].providerPaymentId].transactionId);
    }
  }

  // ---------- The whole batch ----------

  /** Attempt a is pending, belongs to order o, and is in the batch. */
  ghost predicate Handles(db: Db, ids: seq<nat>, a: nat, o: nat) {
    a in ids && a in db.attempts && db.attempts[a].status.Pending? && db.attempts[a].order == o
  }

  ghost predicate Handled(db: Db, ids: seq<nat>, o: nat) {
    exists a :: Handles(db, ids, a, o)
  }

  /** r is db where every pending attempt of the batch ended as it would alone, with its order and
      that order's allocations, and everything else stayed. */
  ghost predicate AsIfAlone(db: Db, ids: seq<nat>, provider: Provider, r: Db) {
    && r == db.(orders := r.orders, allocations := r.allocations, attempts := r.attempts)
    && r.attempts.Keys == db.attempts.Keys
    && r.orders.Keys == db.orders.Keys
    && r.allocations.Keys == db.allocations.Keys
    && (forall i :: i in db.allocations ==> r.allocations[i].order == db.allocations[i].order)
    && (forall a :: a in db.attempts && !Handles(db, ids, a, db.attempts[a].order) ==> r.attempts[a] == db.attempts[a])
    && (forall a, o :: Handles(db, ids, a, o) ==> AgreeOn(r, PassSpec(db, a, provider), a))
    && (forall o :: !Handled(db, ids, o) ==> AgreeOnOrder(r, db, o))
  }

  /** States that agree outside an attempt's reach still agree after its pass. */
  lemma PassKeepsAgreement(r: Db, c: nat, provider: Provider, o: nat)
    requires c in r.attempts ==> r.attempts[c].order != o
    ensures AgreeOnOrder(PassSpec(r, c, provider), r, o)
  {
    PassTouches(r, c, provider);
  }

  lemma AgreementIsTransitive(x: Db, y: Db, z: Db, o: nat)
    requires AgreeOnOrder(x, y, o) && AgreeOnOrder(y, z, o)
    ensures AgreeOnOrder(x, z, o)
  {
  }

  lemma HandlesSnoc(db: Db, ids: seq<nat>, a: nat, o: nat)
    requires ids != []
    ensures Handles(db, ids, a, o) <==>
              Handles(db, ids[..|ids| - 1], a, o) || (a == ids[|ids| - 1] && Handles(db, [a], a, o))
  {
    assert ids == ids[..|ids| - 1] + [ids[|ids| - 1]];
  }

  /** Before its turn an attempt is as it was at the start; at a repeated turn, as it ended. */
  lemma TurnIsAlone(db: Db, ids: seq<nat>, provider: Provider, r: Db, c: nat)
    requires AttemptsApart(db.attempts) && AsIfAlone(db, ids, provider, r)
    requires c in db.attempts && db.attempts[c].status.Pending?
    ensures AgreeOn(PassSpec(r, c, provider), PassSpec(db, c, provider), c)
  {
    hide PassSpec, AgreeOnOrder;
    var o := db.attempts[c].order;
    if c in ids {
      assert Handles(db, ids, c, o);
      PassAgrees(r, PassSpec(db, c, provider), c, provider);
      PassTwice(db, c, provider);
    } else {
      assert !Handled(db, ids, o);
      PassAgrees(r, db, c, provider);
    }
  }

  /** An attempt handled earlier is out of the reach of the next one. */
  lemma EarlierStaysAlone(db: Db, ids: seq<nat>, provider: Provider, r: Db, c: nat, a: nat, o: nat)
    requires AttemptsApart(db.attempts) && AsIfAlone(db, ids, provider, r)
    requires c in db.attempts && db.attempts[c].status.Pending? && a != c && Handles(db, ids, a, o)
    ensures AgreeOn(PassSpec(r, c, provider), PassSpec(db, a, provider), a)
  {
    hide PassSpec, AgreeOnOrder;
    var r' := PassSpec(r, c, provider);
    PassTouches(r, c, provider);
    PassTouches(db, a, provider);
    assert db.attempts[c].order != o;
    AttemptOrderStays(db, ids, provider, r, c);
    PassKeepsAgreement(r, c, provider, o);
    AgreementIsTransitive(r', r, PassSpec(db, a, provider), o);
  }

  lemma AttemptOrderStays(db: Db, ids: seq<nat>, provider: Provider, r: Db, c: nat)
    requires AsIfAlone(db, ids, provider, r) && c in db.attempts
    ensures r.attempts[c].order == db.attempts[c].order
  {
    hide PassSpec;
    if Handles(db, ids, c, db.attempts[c].order) {
      PassTouches(db, c, provider);
      assert AgreeOn(r, PassSpec(db, c, provider), c);
    }
  }

  /** A turn of an attempt that was not pending at the start changes nothing. */
  lemma IdleTurn(db: Db, ids: seq<nat>, provider: Provider, r: Db)
    requires ids != [] && AsIfAlone(db, ids[..|ids| - 1], provider, r)
    requires ids[|ids| - 1] !in db.attempts || !db.attempts[ids[|ids| - 1]].status.Pending?
    ensures AsIfAlone(db, ids, provider, PassSpec(r, ids[|ids| - 1], provider))
  {
    hide PassSpec, AgreeOn, AgreeOnOrder;
    var c := ids[|ids| - 1];
    var before := ids[..|ids| - 1];
    PassTouches(r, c, provider);
    assert PassSpec(r, c, provider) == r by {
      if c in db.attempts {
        assert !Handles(db, before, c, db.attempts[c].order);
      }
    }
    forall a, o ensures Handles(db, ids, a, o) <==> Handles(db, before, a, o) {
      HandlesSnoc(db, ids, a, o);
    }
    forall o ensures Handled(db, ids, o) <==> Handled(db, before, o) {
      if a :| Handles(db, ids, a, o) {
        assert Handles(db, before, a, o);
      }
      if a :| Handles(db, before, a, o) {
        assert Handles(db, ids, a, o);
      }
    }
  }

  lemma ActiveTurn(db: Db, ids: seq<nat>, provider: Provider, r: Db)
    requires AttemptsApart(db.attempts) && ids != [] && AsIfAlone(db, ids[..|ids| - 1], provider, r)
    requires ids[|ids| - 1] in db.attempts && db.attempts[ids[|ids| - 1]].status.Pending?
    ensures AsIfAlone(db, ids, provider, PassSpec(r, ids[|ids| - 1], provider))
  {
    hide PassSpec, AgreeOn, AgreeOnOrder, AttemptsApart;
    var c := ids[|ids| - 1];
    var before := ids[..|ids| - 1];
    var r' := PassSpec(r, c, provider);
    PassTouches(r, c, provider);
    AttemptOrderStays(db, before, provider, r, c);
    forall a | a in db.attempts && !Handles(db, ids, a, db.attempts[a].order) ensures r'.attempts[a] == db.attempts[a] {
      HandlesSnoc(db, ids, a, db.attempts[a].order);
    }
    forall a, o | Handles(db, ids, a, o) ensures AgreeOn(r', PassSpec(db, a, provider), a) {
      HandlesSnoc(db, ids, a, o);
      if a == c {
        TurnIsAlone(db, before, provider, r, c);
      } else {
        EarlierStaysAlone(db, before, provider, r, c, a, o);
      }
    }
    forall o | !Handled(db, ids, o) ensures AgreeOnOrder(r', db, o) {
      assert !Handles(db, ids, c, o);
      assert !Handled(db, before, o) by {
        if a :| Handles(db, before, a, o) {
          HandlesSnoc(db, ids, a, o);
        }
      }
      PassKeepsAgreement(r, c, provider, o);
      AgreementIsTransitive(r', r, db, o);
    }
  }

  /** In a batch, in any order and with any repetitions, every attempt ends as if handled alone. */
  lemma {:induction false} BatchIsAsIfAlone(db: Db, ids: seq<nat>, provider: Provider)
    requires AttemptsApart(db.attempts)
    ensures AsIfAlone(db, ids, provider, BatchSpec(db, ids, provider))
  {
    hide PassSpec, AttemptsApart;
    if ids == [] {
      assert forall a, o :: !Handles(db, ids, a, o);
    } else {
      hide AsIfAlone;
      var r := BatchSpec(db, ids[..|ids| - 1], provider);
      BatchIsAsIfAlone(db, ids[..|ids| - 1], provider);
      if ids[|ids| - 1] in db.attempts && db.attempts[ids[|ids| - 1]].status.Pending? {
        ActiveTurn(db, ids, provider, r);
      } else {
        IdleTurn(db, ids, provider, r);
      }
    }
  }

  ghost predicate SameIds(ids: seq<nat>, ids': seq<nat>) {
    forall a: nat :: a in ids <==> a in ids'
  }

  lemma SameHandled(db: Db, ids: seq<nat>, ids': seq<nat>, o: nat)
    requires SameIds(ids, ids') && Handled(db, ids, o)
    ensures exists a :: Handles(db, ids, a, o) && Handles(db, ids', a, o)
  {
    var a :| Handles(db, ids, a, o);
    assert Handles(db, ids', a, o);
  }

  /** Being as if alone determines the state, from the set of handled attempts only. */
  lemma AsIfAloneIsUnique(db: Db, ids: seq<nat>, ids': seq<nat>, provider: Provider, r: Db, r': Db)
    requires AsIfAlone(db, ids, provider, r) && AsIfAlone(db, ids', provider, r') && SameIds(ids, ids')
    ensures r == r'
  {
    hide PassSpec;
    forall a | a in db.attempts ensures r.attempts[a] == r'.attempts[a] {
      var o := db.attempts[a].order;
      if Handles(db, ids, a, o) {
        assert Handles(db, ids', a, o);
      } else {
        assert !Handles(db, ids', a, o);
      }
    }
    forall o ensures AgreeOnOrder(r, r', o) {
      OrdersAgree(db, ids, ids', provider, r, r', o);
    }
    assert r.attempts == r'.attempts;
    forall o | o in db.orders ensures r.orders[o] == r'.orders[o] {
      assert AgreeOnOrder(r, r', o);
    }
    assert r.orders == r'.orders;
    forall i | i in db.allocations ensures r.allocations[i] == r'.allocations[i] {
      assert AgreeOnOrder(r, r', db.allocations[i].order);
    }
    assert r.allocations == r'.allocations;
  }

  lemma AgreementMeets(x: Db, y: Db, z: Db, o: nat)
    requires AgreeOnOrder(x, z, o) && AgreeOnOrder(y, z, o)
    ensures AgreeOnOrder(x, y, o)
  {
  }

  lemma OrdersAgree(db: Db, ids: seq<nat>, ids': seq<nat>, provider: Provider, r: Db, r': Db, o: nat)
    requires AsIfAlone(db, ids, provider, r) && AsIfAlone(db, ids', provider, r') && SameIds(ids, ids')
    ensures AgreeOnOrder(r, r', o)
  {
    hide PassSpec, AgreeOnOrder;
    if Handled(db, ids, o) {
      SameHandled(db, ids, ids', o);
      var a :| Handles(db, ids, a, o) && Handles(db, ids', a, o);
      PassTouches(db, a, provider);
      assert AgreeOn(r, PassSpec(db, a, provider), a) && AgreeOn(r', PassSpec(db, a, provider), a);
      AttemptOrderStays(db, ids, provider, r, a);
      AttemptOrderStays(db, ids', provider, r', a);
      AgreementMeets(r, r', PassSpec(db, a, provider), o);
    } else {
      assert !Handled(db, ids', o) by {
        if Handled(db, ids', o) {
          SameHandled(db, ids', ids, o);
        }
      }
      AgreementMeets(r, r', db, o);
    }
  }

  /** With the provider's answers and the clock fixed, the processing order does not matter. */
  lemma ReconciliationIsOrderFree(db: Db, ids: seq<nat>, ids': seq<nat>, provider: Provider)
    requires Inv(db) && SameIds(ids, ids')
    ensures BatchSpec(db, ids, provider) == BatchSpec(db, ids', provider)
  {
    BatchIsAsIfAlone(db, ids, provider);
    BatchIsAsIfAlone(db, ids', provider);
    AsIfAloneIsUnique(db, ids, ids', provider, BatchSpec(db, ids, provider), BatchSpec(db, ids', provider));
  }

  lemma {:induction false} BatchInParts(db: Db, ids: seq<nat>, more: seq<nat>, provider: Provider)
    ensures BatchSpec(db, ids + more, provider) == BatchSpec(BatchSpec(db, ids, provider), more, provider)
  {
    hide PassSpec;
    if more == [] {
      assert ids + more == ids;
    } else {
      BatchInParts(db, ids, more[..|more| - 1], provider);
      assert (ids + more)[..|ids + more| - 1] == ids + more[..|more| - 1];
    }
  }

  /** Reconciling the same attempts again with the same answers changes nothing. */
  lemma BatchTwice(db: Db, ids: seq<nat>, provider: Provider)
    requires Inv(db)
    ensures BatchSpec(BatchSpec(db, ids, provider), ids, provider) == BatchSpec(db, ids, provider)
  {
    hide BatchSpec, Inv;
    BatchInParts(db, ids, ids, provider);
    ReconciliationIsOrderFree(db, ids, ids + ids, provider);
  }

  /** What is pending after the job was pending, and selected, before it. */
  lemma NothingBecomesPending(db: Db, provider: Provider, a: nat)
    requires Inv(db)
    ensures var ids := PendingIds(db, db.nextAttempt);
            var r := BatchSpec(db, ids, provider);
            a in PendingIds(r, r.nextAttempt) ==> a in ids
  {
    hide BatchSpec, PassSpec, AgreeOn, AgreeOnOrder, OrdersOk, Tables, OneRowPerLineAndBatch;
    var ids := PendingIds(db, db.nextAttempt);
    var r := BatchSpec(db, ids, provider);
    BatchIsAsIfAlone(db, ids, provider);
  }

  /** Running the whole job again, which selects the pending attempts anew, changes nothing. */
  lemma JobTwice(db: Db, provider: Provider)
    requires Inv(db)
    ensures var r := BatchSpec(db, PendingIds(db, db.nextAttempt), provider);
            BatchSpec(r, PendingIds(r, r.nextAttempt), provider) == r
  {
    hide BatchSpec, Inv;
    var ids := PendingIds(db, db.nextAttempt);
    var r := BatchSpec(db, ids, provider);
    var again := PendingIds(r, r.nextAttempt);
    forall a: nat ensures a in ids <==> a in ids + again {
      NothingBecomesPending(db, provider, a);
    }
    BatchInParts(db, ids, again, provider);
    ReconciliationIsOrderFree(db, ids, ids + again, provider);
  }

  // ---------- The counters ----------

  predicate HasStatus(db: Db, a: nat, status: AttemptStatus) {
    a in db.attempts && db.attempts[a].status == status
  }

  function CountOf(db: Db, ids: seq<nat>, status: AttemptStatus): nat {
    if ids == [] then 0
    else CountOf(db, ids[..|ids| - 1], status) + (if HasStatus(db, ids[|ids| - 1], status) then 1 else 0)
  }

  lemma {:induction false} CountFrame(db: Db, db': Db, ids: seq<nat>, status: AttemptStatus)
    requires forall a :: a in ids ==> (HasStatus(db, a, status) <==> HasStatus(db', a, status))
    ensures CountOf(db, ids, status) == CountOf(db', ids, status)
  {
    if ids != [] {
      assert ids == ids[..|ids| - 1] + [ids[|ids| - 1]];
      CountFrame(db, db', ids[..|ids| - 1], status);
    }
  }

  lemma PassFramesCounts(r: Db, ids: seq<nat>, c: nat, provider: Provider, status: AttemptStatus)
    requires c !in ids
    ensures CountOf(PassSpec(r, c, provider), ids, status) == CountOf(r, ids, status)
  {
    hide PassSpec;
    PassTouches(r, c, provider);
    CountFrame(PassSpec(r, c, provider), r, ids, status);
  }

  lemma {:induction false} BatchFramesAttempt(db: Db, ids: seq<nat>, provider: Provider, a: nat)
    requires a !in ids
    ensures a in db.attempts <==> a in BatchSpec(db, ids, provider).attempts
    ensures a in db.attempts ==> BatchSpec(db, ids, provider).attempts[a] == db.attempts[a]
  {
    hide PassSpec;
    if ids != [] {
      assert ids == ids[..|ids| - 1] + [ids[|ids| - 1]];
      BatchFramesAttempt(db, ids[..|ids| - 1], provider, a);
      PassTouches(BatchSpec(db, ids[..|ids| - 1], provider), ids[|ids| - 1], provider);
    }
  }

  ghost predicate DistinctPending(db: Db, ids: seq<nat>) {
    && (forall i :: 0 <= i < |ids| ==> IsPendingRetail(db, ids[i]))
    && (forall i, j :: 0 <= i < j < |ids| ==> ids[i] != ids[j])
  }

  /** The counters account for every selected attempt: each was checked or is unresolved, and the
      checked ones split into the attempts that are now succeeded, failed or still pending. */
  lemma {:induction false} CountersAreTrue(db: Db, ids: seq<nat>, provider: Provider)
    requires DistinctPending(db, ids)
    ensures var s, r := BatchCounts(db, ids, provider), BatchSpec(db, ids, provider);
            && s.checked + s.unresolved == |ids|
            && s.succeeded == CountOf(r, ids, AttemptStatus.Succeeded)
            && s.failed == CountOf(r, ids, AttemptStatus.Failed)
            && s.pending + s.errors + s.unresolved == CountOf(r, ids, AttemptStatus.Pending)
            && s.cancelled == 0 && s.selected == 0
  {
    hide PassSpec, ReconcileSpec, IsPendingRetail;
    if ids != [] {
      var n := |ids| - 1;
      var before, c := ids[..n], ids[n];
      var r := BatchSpec(db, before, provider);
      CountersAreTrue(db, before, provider);
      assert IsPendingRetail(db, c);
      assert HasStatus(db, c, AttemptStatus.Pending) by { PendingHasStatus(db, c); }
      BatchFramesAttempt(db, before, provider, c);
      PassFramesCounts(r, before, c, provider, AttemptStatus.Succeeded);
      PassFramesCounts(r, before, c, provider, AttemptStatus.Failed);
      PassFramesCounts(r, before, c, provider, AttemptStatus.Pending);
      PassOutcome(r, c, provider);
    }
  }

  lemma PendingHasStatus(db: Db, a: nat)
    requires IsPendingRetail(db, a)
    ensures HasStatus(db, a, AttemptStatus.Pending)
  {
  }

  /** A pass over a pending attempt leaves it pending, succeeded or failed; pending when it raised. */
  lemma PassOutcome(r: Db, c: nat, provider: Provider)
    requires HasStatus(r, c, AttemptStatus.Pending)
    ensures var r' := PassSpec(r, c, provider);
            && c in r'.attempts && !r'.attempts[c].status.Cancelled?
            && (!IsChecked(r, c) || ReconcileSpec(r, c, provider).Err? ==> r' == r)
  {
    hide PlacePaidSpec, Strip;
    if IsChecked(r, c) && ReconcileSpec(r, c, provider).Ok? && IsCompleted(r, c, provider) {
      CompletedAttempt(r, c, provider[r.attempts[c].providerPaymentId].transactionId);
    }
  }

  /** The job selects every pending retail attempt once, and its counters account for all of them. */
  lemma JobAccountsForEveryAttempt(db: Db, provider: Provider)
    requires KeysOk(db)
    ensures var ids := PendingIds(db, db.nextAttempt);
            && (forall a: nat :: a in ids <==> IsPendingRetail(db, a))
            && DistinctPending(db, ids)
    ensures var ids, s := PendingIds(db, db.nextAttempt), BatchCounts(db, PendingIds(db, db.nextAttempt), provider);
            && s.checked + s.unresolved == |ids|
            && s.succeeded + s.failed + s.pending + s.errors == s.checked
  {
    hide BatchCounts, BatchSpec, CountOf;
    var ids := PendingIds(db, db.nextAttempt);
    assert forall i :: 0 <= i < |ids| ==> ids[i] in ids;
    CountersAreTrue(db, ids, provider);
    EveryoneHasOneStatus(db, ids, provider);
  }

  lemma {:induction false} StatusesAddUp(db: Db, ids: seq<nat>)
    requires forall a :: a in ids ==> a in db.attempts
    ensures CountOf(db, ids, AttemptStatus.Pending) + CountOf(db, ids, AttemptStatus.Succeeded)
            + CountOf(db, ids, AttemptStatus.Failed) + CountOf(db, ids, AttemptStatus.Cancelled) == |ids|
  {
    if ids != [] {
      StatusesAddUp(db, ids[..|ids| - 1]);
    }
  }

  lemma {:induction false} NoneCancelled(db: Db, ids: seq<nat>, before: seq<nat>, provider: Provider)
    requires DistinctPending(db, ids) && before <= ids
    ensures CountOf(BatchSpec(db, before, provider), before, AttemptStatus.Cancelled) == 0
    ensures forall a :: a in before ==> a in BatchSpec(db, before, provider).attempts
  {
    hide PassSpec, ReconcileSpec, IsPendingRetail;
    if before != [] {
      var n := |before| - 1;
      var r, c := BatchSpec(db, before[..n], provider), before[n];
      NoneCancelled(db, ids, before[..n], provider);
      assert c == ids[n] && IsPendingRetail(db, c);
      PendingHasStatus(db, c);
      assert forall i :: 0 <= i < n ==> before[i] == ids[i];
      BatchFramesAttempt(db, before[..n], provider, c);
      PassFramesCounts(r, before[..n], c, provider, AttemptStatus.Cancelled);
      PassOutcome(r, c, provider);
      PassTouches(r, c, provider);
    }
  }

  lemma EveryoneHasOneStatus(db: Db, ids: seq<nat>, provider: Provider)
    requires DistinctPending(db, ids)
    ensures var r := BatchSpec(db, ids, provider);
            CountOf(r, ids, AttemptStatus.Pending) + CountOf(r, ids, AttemptStatus.Succeeded)
            + CountOf(r, ids, AttemptStatus.Failed) == |ids|
  {
    hide BatchSpec;
    NoneCancelled(db, ids, ids, provider);
    StatusesAddUp(BatchSpec(db, ids, provider), ids);
  }
}
