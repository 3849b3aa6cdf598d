/** The retail payment workflow keeps the invariant: holds are all or nothing, and orders are paid once. */
module RetailSteps {
  import opened Common
  import opened Records
  import opened Pricing
  import opened Reservations
  import opened ReservationFacts
  import opened Placement
  import opened Orders
  import opened Payments
  import opened Retail
  import opened Invariant
  import opened OrderSteps
  import opened EditSteps
  import opened PlacementFacts

  // ---------- Changing only attempts ----------

  lemma AttemptsTables(db: Db, db': Db)
    requires Tables(db) && db' == db.(attempts := db'.attempts, nextAttempt := db'.nextAttempt)
    requires forall a :: a in db'.attempts ==> a < db'.nextAttempt && db'.attempts[a].order in db'.orders
    ensures Tables(db')
  {
    forall k | 0 <= k < |db'.offers| ensures OfferOk(db', k) {
      assert OfferOk(db, k);
    }
    forall l | l in db'.lines ensures LineOk(db', l) {
      assert LineOk(db, l);
    }
    forall i | i in db'.allocations ensures AllocationOk(db', i) {
      assert AllocationOk(db, i);
    }
  }

  lemma AttemptsStockAndOrders(db: Db, db': Db)
    requires Tables(db) && Tables(db') && db' == db.(attempts := db'.attempts, nextAttempt := db'.nextAttempt)
    ensures StockOk(db) ==> StockOk(db')
    ensures OrdersOk(db) ==> OrdersOk(db')
  {
    if StockOk(db) {
      forall b | 0 <= b < |db'.batches| ensures BatchOk(db', b) {
        assert BatchOk(db, b);
      }
    }
    if OrdersOk(db) {
      forall o | o in db'.orders ensures OrderOk(db', o) {
        OrderFrame(db, db', o);
      }
    }
  }

  // ---------- Starting a payment ----------

  /** Fresh holds replace the old ones: full coverage with one deadline. */
  lemma HoldEffect(db: Db, o: nat, held: Db)
    requires Inv(db) && OfferKeysOk(db) && o in db.orders && db.orders[o].channel.Retail? && db.orders[o].status.Draft?
    requires OrderLines(db, o) != []
    requires HoldSpec(db, o) == Ok(held)
    ensures held == db.(allocations := held.allocations, nextAllocation := held.nextAllocation)
    ensures Tables(held) && StockOk(held) && OneRowPerLineAndBatch(held.allocations) && OrdersOk(held)
    ensures Covered(held, o, Some(db.now + RETAIL_PAYMENT_RESERVATION_WINDOW))
    ensures forall p :: p != o ==> SameAllocationsFor(db.allocations, held.allocations, p)
  {
    hide ReserveLinesSpec, StockOk, OneRowPerLineAndBatch, OffersOk, LinesOk, KeysOk, PaymentsOk, Covered, SameAllocationsFor;
    var until := Some(db.now + RETAIL_PAYMENT_RESERVATION_WINDOW);
    var cleared := WithoutTemporary(db, o);
    assert OrderOk(db, o);
    CancelEffect(db, o, TemporaryBy(o), cleared);
    TemporaryIsAll(db, o);
    LineIdsFacts(cleared, o);
    OfferKeysFrame(db, cleared);
    ReserveOrderEffect(cleared, o, Retail, until, held);
    forall p | p != o ensures SameAllocationsFor(db.allocations, held.allocations, p) {
      SameAllocationsTransitive(db.allocations, cleared.allocations, held.allocations, p);
    }
    HeldOrders(db, held, o, until);
  }

  lemma HeldOrders(db: Db, held: Db, o: nat, until: Option<int>)
    requires AllocationsOk(db) && AllocationsOk(held) && OrdersOk(db)
    requires o in db.orders && db.orders[o].channel.Retail? && db.orders[o].status.Draft? && until.Some?
    requires held == db.(allocations := held.allocations, nextAllocation := held.nextAllocation)
    requires db.nextAllocation <= held.nextAllocation
    requires forall p :: p != o ==> SameAllocationsFor(db.allocations, held.allocations, p)
    requires Covered(held, o, until) && NothingConsumed(held.allocations, o)
    ensures OrdersOk(held)
  {
    hide Covered, NothingConsumed, SameAllocationsFor;
    assert until == Some(until.value) && Covered(held, o, Some(until.value));
    var d: int := until.value;
    assert Covered(held, o, Some(d));
    assert AllOrNothing(held, o);
    assert held.orders[o].status.Draft? && !held.orders[o].channel.Business?;
    assert OrderOk(held, o);
    OrdersFrame(db, held, o);
  }

  lemma NewAttemptPayments(db: Db, o: nat, db': Db)
    requires Tables(db) && PaymentsOk(db) && o in db.orders && db.orders[o].channel.Retail?
    requires CreateAttemptSpec(db, o) == Ok(db')
    ensures PaymentsOk(db')
  {
    forall a | a in db'.attempts ensures AttemptOk(db', a) {
      if a in db.attempts {
        assert AttemptOk(db, a);
      }
    }
    forall p | p in db'.orders ensures PaidOk(db', p) {
      assert PaidOk(db, p);
      if a :| a in db.attempts && db.attempts[a].order == p && db.attempts[a].status.Succeeded? {
        assert a in db'.attempts && db'.attempts[a] == db.attempts[a];
      }
    }
  }

  lemma StartPaymentKeepsInv(db: Db, o: nat, db': Db)
    requires Inv(db) && OfferKeysOk(db) && StartPaymentSpec(db, o) == Ok(db')
    ensures Inv(db')
    ensures Covered(db', o, Some(db.now + RETAIL_PAYMENT_RESERVATION_WINDOW))
    ensures forall p :: p != o ==> SameAllocationsFor(db.allocations, db'.allocations, p)
  {
    hide HoldSpec, StockOk, OneRowPerLineAndBatch, OrdersOk, Covered, OffersOk, LinesOk, AllocationsOk, SameAllocationsFor;
    var held := HoldSpec(db, o).value;
    HoldEffect(db, o, held);
    HeldPayments(db, held);
    NewAttemptPayments(held, o, db');
    AttemptsTables(held, db');
    AttemptsStockAndOrders(held, db');
    CoveredIgnoresAttempts(held, db', o, Some(db.now + RETAIL_PAYMENT_RESERVATION_WINDOW));
  }

  lemma CoveredIgnoresAttempts(db: Db, db': Db, o: nat, until: Option<int>)
    requires Covered(db, o, until) && db' == db.(attempts := db'.attempts, nextAttempt := db'.nextAttempt)
    ensures Covered(db', o, until)
  {
    forall l | l in db'.lines && db'.lines[l].order == o ensures LineHeld(db', l) {
      assert LineHeld(db, l);
    }
  }

  lemma HeldPayments(db: Db, held: Db)
    requires PaymentsOk(db) && Tables(db) && Tables(held)
    requires held == db.(allocations := held.allocations, nextAllocation := held.nextAllocation)
    ensures PaymentsOk(held)
  {
    TablesGiveKeys(db);
    TablesGiveKeys(held);
    PaymentsFrame(db, held);
  }

  /** What the payment start checks before it reserves. */
  ghost predicate MayStart(db: Db, o: nat) {
    && o in db.checkouts && o in db.orders && db.checkouts[o] > db.now
    && db.orders[o].channel.Retail? && db.orders[o].status.Draft?
    && !HasPending(db.attempts, o) && HasLine(db.lines, o)
  }

  lemma HoldsWhenFitting(db: Db, o: nat)
    requires Inv(db) && OfferKeysOk(db) && MayStart(db, o)
    ensures OfferKeysOk(WithoutTemporary(db, o)) && AreLines(WithoutTemporary(db, o), OrderLines(db, o))
    ensures HoldSpec(db, o).Ok? <==> AllFitTogether(WithoutTemporary(db, o), OrderLines(db, o), Retail)
  {
    hide ReserveLinesSpec, StockOk, OneRowPerLineAndBatch, KeysOk, PaymentsOk, AllFitTogether;
    var until := Some(db.now + RETAIL_PAYMENT_RESERVATION_WINDOW);
    var cleared := WithoutTemporary(db, o);
    CancelEffect(db, o, TemporaryBy(o), cleared);
    AllocationKeys(cleared);
    LineIdsFacts(cleared, o);
    OfferKeysFrame(db, cleared);
    HoldUnfolds(db, o, cleared, OrderLines(db, o), until);
    ReservingIsExact(cleared, OrderLines(db, o), Retail, until);
  }

  /** Charging for held stock cannot fail: the order is priced and has no pending attempt. */
  lemma ChargingSucceeds(db: Db, o: nat, held: Db)
    requires Inv(db) && MayStart(db, o)
    requires held == db.(allocations := held.allocations, nextAllocation := held.nextAllocation)
    ensures CreateAttemptSpec(held, o).Ok?
  {
    hide StockOk, OneRowPerLineAndBatch, Tables, OrdersOk;
    assert PaidOk(db, o);
    assert OrderTotal(held, o) == OrderTotal(db, o);
  }

  /** A retail payment starts exactly when the checkout may be paid and, without the order's earlier
      holds, each line's offer may be sold and each pool has the units the order asks of its offer. */
  lemma PaymentStartsExactly(db: Db, o: nat)
    requires Inv(db) && OfferKeysOk(db)
    ensures StartPaymentSpec(db, o).Ok? <==>
              MayStart(db, o)
              && OfferKeysOk(WithoutTemporary(db, o)) && AreLines(WithoutTemporary(db, o), OrderLines(db, o))
              && AllFitTogether(WithoutTemporary(db, o), OrderLines(db, o), Retail)
  {
    hide HoldSpec, StockOk, OneRowPerLineAndBatch, OffersOk, KeysOk, PaymentsOk, OrdersOk, AllFitTogether, WithoutTemporary, OfferKeysOk, CreateAttemptSpec;
    LineIdsFacts(db, o);
    if MayStart(db, o) {
      HoldsWhenFitting(db, o);
      if HoldSpec(db, o).Ok? {
        HeldIsExtension(db, o);
        ChargingSucceeds(db, o, HoldSpec(db, o).value);
      }
    }
  }

  lemma HeldIsExtension(db: Db, o: nat)
    requires OfferKeysOk(db) && HoldSpec(db, o).Ok?
    ensures var held := HoldSpec(db, o).value;
            held == db.(allocations := held.allocations, nextAllocation := held.nextAllocation)
  {
    hide ReserveLinesSpec, CancelMatching;
  }

  // ---------- Completing ----------

  /** Promotion is all or nothing: when any hold is active, all are, and all become permanent. */
  lemma PromotionIsTotal(db: Db, o: nat, promoted: Db)
    requires AllocationsOk(db) && AllOrNothing(db, o) && MakePermanentSpec(db, o) == Ok(promoted)
    ensures promoted == db.(allocations := promoted.allocations)
    ensures Covered(promoted, o, None) && Weakened(db, promoted, o)
    ensures NothingConsumed(db.allocations, o) ==> NothingConsumed(promoted.allocations, o)
  {
    assert !HoldsNothing(db.allocations, o) by {
      var i :| i in db.allocations && ActiveFor(db.allocations[i], o, db.now);
      assert Matches(db.allocations[i], ReservedBy(o));
    }
    var d: int :| Covered(db, o, Some(d));
    assert d > db.now;
    PromotedCovers(db, o, d, promoted);
  }

  lemma PromotedCovers(db: Db, o: nat, d: int, promoted: Db)
    requires Covered(db, o, Some(d)) && d > db.now
    requires promoted == db.(allocations := PromoteActive(db.allocations, o, db.now))
    ensures Covered(promoted, o, None)
  {
    forall l | l in promoted.lines && promoted.lines[l].order == o ensures LineHeld(promoted, l) {
      assert LineHeld(db, l);
      TotalSame(promoted.allocations, db.nextAllocation, ReservedFor(l), db.allocations, ReservedFor(l));
    }
  }

  lemma PlacePaidEffect(db: Db, o: nat, placed: Db)
    requires Inv(db) && o in db.orders && db.orders[o].channel.Retail? && PlacePaidSpec(db, o) == Ok(placed)
    ensures placed == db.(allocations := placed.allocations, orders := db.orders[o := OrderRow(Retail, Placed)])
    ensures db.orders[o].status.Draft?
    ensures Tables(placed) && StockOk(placed) && OneRowPerLineAndBatch(placed.allocations) && OrdersOk(placed)
  {
    hide StockOk, OneRowPerLineAndBatch, OffersOk, LinesOk, KeysOk, PaymentsOk, Covered, Weakened, MakePermanentSpec, SameAllocationsFor;
    var promoted := MakePermanentSpec(db, o).value;
    assert OrderOk(db, o);
    PromotionIsTotal(db, o, promoted);
    WeakenedTables(db, promoted, o);
    WeakenedStock(db, promoted, o);
    CoveredIgnoresOrders(promoted, placed, o);
    StatusChange(db, promoted, o, Placed, placed);
  }

  lemma CoveredIgnoresOrders(db: Db, db': Db, o: nat)
    requires Covered(db, o, None) && db' == db.(orders := db'.orders)
    ensures Covered(db', o, None)
  {
    forall l | l in db'.lines && db'.lines[l].order == o ensures LineHeld(db', l) {
      assert LineHeld(db, l);
    }
  }

  /** Completing one pending attempt of a draft pays its order exactly once. */
  lemma PaidPayments(db: Db, a: nat, row: AttemptRow, db': Db)
    requires Tables(db) && PaymentsOk(db) && a in db.attempts && db.attempts[a].status.Pending?
    requires row.order == db.attempts[a].order && row.amount == db.attempts[a].amount && row.status.Succeeded?
    requires db.orders[row.order].channel.Retail? && db.orders[row.order].status.Draft?
    requires db'.lines == db.lines && db'.nextLine == db.nextLine
    requires db'.orders == db.orders[row.order := OrderRow(Retail, Placed)]
    requires db'.attempts == db.attempts[a := row]
    ensures PaymentsOk(db')
  {
    assert AttemptOk(db, a);
    forall b | b in db'.attempts ensures AttemptOk(db', b) {
      assert AttemptOk(db, b);
    }
    forall b | b in db.attempts && db.attempts[b].order == row.order ensures !db.attempts[b].status.Succeeded? {
      assert AttemptOk(db, b);
    }
    forall p | p in db'.orders ensures PaidOk(db', p) {
      if p == row.order {
        assert a in db'.attempts && db'.attempts[a] == row;
      }
      assert PaidOk(db, p);
      if b :| b in db.attempts && db.attempts[b].order == p && db.attempts[b].status.Succeeded? {
        assert b in db'.attempts && db'.attempts[b] == db.attempts[b];
      }
    }
  }

  lemma CompleteKeepsInv(db: Db, a: nat, transactionId: Option<string>, db': Db)
    requires Inv(db) && CompleteSpec(db, a, transactionId) == Ok(db')
    ensures Inv(db')
  {
    hide StockOk, OneRowPerLineAndBatch, OffersOk, LinesOk, AllocationsOk, OrdersOk, PlacePaidSpec, PaymentsOk;
    var o := db.attempts[a].order;
    var placed := PlacePaidSpec(db, o).value;
    PlacePaidEffect(db, o, placed);
    PaidPayments(db, a, db'.attempts[a], db');
    AttemptsTables(placed, db');
    AttemptsStockAndOrders(placed, db');
  }

  /** No order is placed on an expired or partial hold: completing a payment finds every line held in
      full until one deadline that has not passed, and leaves every line covered for good. */
  lemma PaidOrdersWereHeldInFull(db: Db, a: nat, transactionId: Option<string>, db': Db)
    requires Inv(db) && CompleteSpec(db, a, transactionId) == Ok(db')
    ensures a in db.attempts
    ensures exists d: int :: d > db.now && Covered(db, db.attempts[a].order, Some(d))
    ensures Covered(db', db.attempts[a].order, None)
  {
    hide StockOk, OneRowPerLineAndBatch, PaymentsOk, Covered, Strip;
    var o := db.attempts[a].order;
    CompleteKeepsInv(db, a, transactionId, db');
    assert OrderOk(db, o) && OrderOk(db', o);
    ActiveHoldIsFull(db, o);
  }

  lemma ActiveHoldIsFull(db: Db, o: nat)
    requires AllOrNothing(db, o) && MakePermanentSpec(db, o).Ok?
    ensures exists d: int :: d > db.now && Covered(db, o, Some(d))
  {
    var i :| i in db.allocations && ActiveFor(db.allocations[i], o, db.now);
    assert Matches(db.allocations[i], ReservedBy(o));
    var d: int :| Covered(db, o, Some(d));
    assert d > db.now;
  }

  /** A full hold that has not expired is promoted. */
  lemma FullHoldIsPromoted(db: Db, o: nat, d: int)
    requires AllocationsOk(db) && d > db.now && Covered(db, o, Some(d))
    ensures MakePermanentSpec(db, o).Ok?
  {
    var l :| l in db.lines && db.lines[l].order == o;
    assert LineHeld(db, l);
    var i := TotalWitness(db.allocations, db.nextAllocation, ReservedFor(l));
    assert AllocationOk(db, i);
    assert Matches(db.allocations[i], ReservedBy(o));
    assert ActiveFor(db.allocations[i], o, db.now);
    assert forall j :: j in db.allocations && ActiveFor(db.allocations[j], o, db.now) ==> Matches(db.allocations[j], ReservedBy(o));
  }

  lemma PromotionKeepsRest(db: Db, o: nat)
    ensures MakePermanentSpec(db, o).Ok? ==>
              MakePermanentSpec(db, o).value == db.(allocations := MakePermanentSpec(db, o).value.allocations)
  {
  }

  ghost predicate HeldInFull(db: Db, o: nat) {
    exists d: int :: d > db.now && Covered(db, o, Some(d))
  }

  lemma PaidPlacementIsExact(db: Db, o: nat)
    requires Inv(db) && o in db.orders && db.orders[o].channel.Retail?
    ensures PlacePaidSpec(db, o).Ok? <==> db.orders[o].status.Draft? && HeldInFull(db, o)
  {
    hide StockOk, OneRowPerLineAndBatch, PaymentsOk, OffersOk, LinesOk, KeysOk, AllocationsOk, Covered, AllOrNothing, MakePermanentSpec, NothingConsumed;
    assert OrderOk(db, o);
    PromotionKeepsRest(db, o);
    if db.orders[o].status.Draft? {
      if d: int :| d > db.now && Covered(db, o, Some(d)) {
        FullHoldIsPromoted(db, o, d);
      }
      if MakePermanentSpec(db, o).Ok? {
        ActiveHoldIsFull(db, o);
      }
    }
  }

  /** A confirmed payment places its order exactly when the attempt is pending, its order is a draft that
      is held in full until a deadline that has not passed, and a given transaction id is not all blanks. */
  lemma PaymentCompletesExactly(db: Db, a: nat, transactionId: Option<string>)
    requires Inv(db)
    ensures CompleteSpec(db, a, transactionId).Ok? <==>
              && a in db.attempts && db.attempts[a].status.Pending?
              && db.attempts[a].order in db.orders && db.orders[db.attempts[a].order].status.Draft?
              && HeldInFull(db, db.attempts[a].order)
              && (transactionId.Some? ==> !AllBlank(transactionId.value))
  {
    hide StockOk, OneRowPerLineAndBatch, OffersOk, LinesOk, AllocationsOk, OrdersOk, PlacePaidSpec, HeldInFull, AllBlank, Strip;
    if transactionId.Some? {
      StripsToNothing(transactionId.value);
    }
    if a in db.attempts {
      assert AttemptOk(db, a);
      PaidPlacementIsExact(db, db.attempts[a].order);
      PlacePaidKeepsAttempts(db, db.attempts[a].order);
    }
  }

  // ---------- Failing ----------

  lemma FailedPayments(db: Db, a: nat, db': Db)
    requires PaymentsOk(db) && a in db.attempts && db.attempts[a].status.Pending?
    requires db'.lines == db.lines && db'.nextLine == db.nextLine && db'.orders == db.orders
    requires db'.attempts == db.attempts[a := db.attempts[a].(status := Failed)]
    ensures PaymentsOk(db')
  {
    forall b | b in db'.attempts ensures AttemptOk(db', b) {
      assert AttemptOk(db, b);
    }
    forall p | p in db'.orders ensures PaidOk(db', p) {
      assert PaidOk(db, p);
      if b :| b in db.attempts && db.attempts[b].order == p && db.attempts[b].status.Succeeded? {
        assert b in db'.attempts && db'.attempts[b] == db.attempts[b];
      }
    }
  }

  lemma FailKeepsInv(db: Db, a: nat, db': Db)
    requires Inv(db) && FailSpec(db, a) == Ok(db')
    ensures Inv(db')
  {
    hide StockOk, OneRowPerLineAndBatch, OffersOk, LinesOk, PaymentsOk, SameAllocationsFor;
    var o := db.attempts[a].order;
    var cleared := WithoutTemporary(db, o);
    assert OrderOk(db, o);
    CancelEffect(db, o, TemporaryBy(o), cleared);
    TemporaryIsAll(db, o);
    OrdersFrame(db, cleared, o);
    FailedPayments(db, a, db');
    AttemptsTables(cleared, db');
    AttemptsStockAndOrders(cleared, db');
  }

  /** A failed payment gives everything back: the order stays a draft, holds nothing any more, and no
      other order's rows change. */
  lemma FailedPaymentsReleaseAll(db: Db, a: nat, db': Db)
    requires Inv(db) && FailSpec(db, a) == Ok(db')
    ensures a in db.attempts && HoldsNothing(db'.allocations, db.attempts[a].order)
    ensures db' == db.(allocations := db'.allocations, attempts := db.attempts[a := db.attempts[a].(status := Failed)])
    ensures forall i :: i in db.allocations && db.allocations[i].order != db.attempts[a].order ==>
              i in db'.allocations && db'.allocations[i] == db.allocations[i]
  {
    hide StockOk, OneRowPerLineAndBatch, Tables, PaymentsOk;
    assert OrderOk(db, db.attempts[a].order);
    TemporaryIsAll(db, db.attempts[a].order);
  }

  lemma AttachKeepsInv(db: Db, a: nat, paymentId: string, db': Db)
    requires Inv(db) && AttachProviderSpec(db, a, paymentId) == Ok(db')
    ensures Inv(db')
  {
    hide StockOk, OneRowPerLineAndBatch, OffersOk, LinesOk, AllocationsOk, OrdersOk;
    AttemptsTables(db, db');
    AttemptsStockAndOrders(db, db');
    forall b | b in db'.attempts ensures AttemptOk(db', b) {
      assert AttemptOk(db, b);
    }
    forall p | p in db'.orders ensures PaidOk(db', p) {
      assert PaidOk(db, p);
      if b :| b in db.attempts && db.attempts[b].order == p && db.attempts[b].status.Succeeded? {
        assert b in db'.attempts && db'.attempts[b] == db.attempts[b];
      }
    }
  }
}
