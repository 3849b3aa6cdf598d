/** Reserving, releasing, consuming and promoting an order's allocations keep the invariant. */
module OrderSteps {
  import opened Common
  import opened Records
  import opened Pricing
  import opened Reservations
  import opened ReservationFacts
  import opened Placement
  import opened Orders
  import opened OrderEdit
  import opened Invariant

  // ---------- Reserving a whole order ----------

  lemma LineIdsFacts(db: Db, o: nat)
    requires LinesOk(db)
    ensures AreLines(db, OrderLines(db, o)) && DistinctLines(OrderLines(db, o))
    ensures forall l :: l in OrderLines(db, o) <==> l in db.lines && db.lines[l].order == o
    ensures OrderLines(db, o) != [] <==> HasLine(db.lines, o)
  {
    var ids := OrderLines(db, o);
    forall l | l in db.lines && db.lines[l].order == o ensures l in ids {
      assert LineOk(db, l);
    }
    if ids != [] {
      assert ids[0] in ids;
    }
  }

  lemma ExtendedTables(db: Db, db': Db, ids: seq<nat>, until: Option<int>)
    requires Tables(db) && Extends(db, db', ids, until)
    ensures Tables(db')
  {
    forall k | 0 <= k < |db'.offers| ensures OfferOk(db', k) {
      assert OfferOk(db, k);
    }
    forall l | l in db'.lines ensures LineOk(db', l) {
      assert LineOk(db, l);
    }
    forall i | i in db'.allocations ensures AllocationOk(db', i) {
      if i in db.allocations {
        assert AllocationOk(db, i);
      } else {
        assert NewRowOk(db, db'.allocations[i], ids, until);
      }
    }
  }

  lemma ExtendedRowsApart(db: Db, db': Db, ids: seq<nat>, until: Option<int>)
    requires Extends(db, db', ids, until) && OneRowPerLineAndBatch(db.allocations)
    requires forall i :: i in db.allocations && db.allocations[i].line in ids ==> db.allocations[i].status.Cancelled?
    ensures OneRowPerLineAndBatch(db'.allocations)
  {
    forall i | i in db'.allocations && i !in db.allocations ensures db'.allocations[i].line in ids {
      assert NewRowOk(db, db'.allocations[i], ids, until);
    }
  }

  /** An order without open rows, reserved line by line, ends up exactly covered; other orders' rows
      are untouched. */
  ghost predicate JustReserved(db: Db, db': Db, o: nat, until: Option<int>) {
    && db' == db.(allocations := db'.allocations, nextAllocation := db'.nextAllocation)
    && db.nextAllocation <= db'.nextAllocation
    && Tables(db') && StockOk(db') && OneRowPerLineAndBatch(db'.allocations)
    && Covered(db', o, until) && NothingConsumed(db'.allocations, o)
    && (forall p :: p != o ==> SameAllocationsFor(db.allocations, db'.allocations, p))
  }

  lemma ReserveOrderEffect(db: Db, o: nat, channel: Channel, until: Option<int>, db': Db)
    requires Tables(db) && StockOk(db) && OneRowPerLineAndBatch(db.allocations)
    requires OfferKeysOk(db) && AreLines(db, OrderLines(db, o)) && OrderLines(db, o) != []
    requires HoldsNothing(db.allocations, o) && NothingConsumed(db.allocations, o)
    requires until.None? || until.value > db.now
    requires ReserveLinesSpec(db, OrderLines(db, o), channel, until) == Ok(db')
    ensures JustReserved(db, db', o, until)
  {
    hide ReserveLinesSpec, OneRowPerLineAndBatch, StockOk, Extends;
    var ids := OrderLines(db, o);
    LineIdsFacts(db, o);
    AllocationKeys(db);
    LinesEffect(db, ids, channel, until, db');
    ExtendedTables(db, db', ids, until);
    OpenRowsAbsent(db, o, ids);
    ExtendedRowsApart(db, db', ids, until);
    ExtendedOrder(db, db', o, ids, until);
    forall l | l in db'.lines && db'.lines[l].order == o ensures LineHeld(db', l) {
      ReservedLineHeld(db, o, channel, until, db', l);
    }
  }

  lemma OpenRowsAbsent(db: Db, o: nat, ids: seq<nat>)
    requires AllocationsOk(db) && HoldsNothing(db.allocations, o) && NothingConsumed(db.allocations, o)
    requires forall l :: l in ids ==> l in db.lines && db.lines[l].order == o
    ensures forall i :: i in db.allocations && db.allocations[i].line in ids ==> db.allocations[i].status.Cancelled?
  {
    forall i | i in db.allocations && db.allocations[i].line in ids ensures db.allocations[i].status.Cancelled? {
      assert AllocationOk(db, i);
    }
  }

  lemma ReservedLineHeld(db: Db, o: nat, channel: Channel, until: Option<int>, db': Db, l: nat)
    requires Tables(db) && StockOk(db) && OfferKeysOk(db) && AreLines(db, OrderLines(db, o))
    requires HoldsNothing(db.allocations, o)
    requires until.None? || until.value > db.now
    requires ReserveLinesSpec(db, OrderLines(db, o), channel, until) == Ok(db')
    requires l in db.lines && db.lines[l].order == o
    ensures l in db'.lines && LineHeld(db', l)
  {
    hide ReserveLinesSpec, StockOk;
    LineIdsFacts(db, o);
    AllocationKeys(db);
    LinesTotal(db, OrderLines(db, o), channel, until, db', l);
    NothingHeldForLine(db, o, l);
  }

  /** The rows of the order itself, and of no other order, are new. */
  lemma ExtendedOrder(db: Db, db': Db, o: nat, ids: seq<nat>, until: Option<int>)
    requires Extends(db, db', ids, until)
    requires forall l :: l in ids ==> l in db.lines && db.lines[l].order == o
    requires HoldsNothing(db.allocations, o) && NothingConsumed(db.allocations, o)
    ensures db' == db.(allocations := db'.allocations, nextAllocation := db'.nextAllocation)
    ensures db.nextAllocation <= db'.nextAllocation
    ensures Deadline(db'.allocations, o, until) && NothingConsumed(db'.allocations, o)
    ensures forall p :: p != o ==> SameAllocationsFor(db.allocations, db'.allocations, p)
  {
    forall i | i in db'.allocations && i !in db.allocations
      ensures db'.allocations[i].order == o && db'.allocations[i].reservedUntil == until && db'.allocations[i].status.Reserved?
    {
      assert NewRowOk(db, db'.allocations[i], ids, until);
    }
  }

  lemma NothingHeldForLine(db: Db, o: nat, l: nat)
    requires AllocationsOk(db) && HoldsNothing(db.allocations, o) && l in db.lines && db.lines[l].order == o
    ensures Total(db.allocations, db.nextAllocation, ReservedFor(l)) == 0
  {
    forall i | 0 <= i < db.nextAllocation ensures Weight(db.allocations, i, ReservedFor(l)) == 0 {
      if i in db.allocations {
        assert AllocationOk(db, i);
      }
    }
    TotalZero(db.allocations, db.nextAllocation, ReservedFor(l));
  }

  // ---------- Changing only the status or deadline of one order's rows ----------

  /** db' has the same rows as db; only rows of order o differ, and only in status or deadline, and
      none of them becomes open or active again. */
  ghost predicate Weakened(db: Db, db': Db, o: nat) {
    && db'.allocations.Keys == db.allocations.Keys
    && forall i :: i in db.allocations ==>
         && (db.allocations[i].order != o ==> db'.allocations[i] == db.allocations[i])
         && db'.allocations[i] == db.allocations[i].(status := db'.allocations[i].status,
                                                     reservedUntil := db'.allocations[i].reservedUntil)
         && (db.allocations[i].status.Cancelled? ==> db'.allocations[i].status.Cancelled?)
         && (IsActive(db'.allocations[i], db.now) ==> IsActive(db.allocations[i], db.now))
  }

  lemma WeakenedRows(db: Db, db': Db, o: nat)
    requires Weakened(db, db', o)
    ensures OneRowPerLineAndBatch(db.allocations) ==> OneRowPerLineAndBatch(db'.allocations)
    ensures forall p :: p != o ==> SameAllocationsFor(db.allocations, db'.allocations, p)
  {
  }

  lemma WeakenedAllocations(db: Db, db': Db, o: nat)
    requires AllocationsOk(db) && Weakened(db, db', o) && db' == db.(allocations := db'.allocations)
    ensures AllocationsOk(db')
  {
    hide IsActive;
    forall i | i in db'.allocations ensures AllocationOk(db', i) {
      assert AllocationOk(db, i);
    }
  }

  lemma WeakenedTables(db: Db, db': Db, o: nat)
    requires Tables(db) && Weakened(db, db', o)
    requires db' == db.(allocations := db'.allocations)
    ensures OneRowPerLineAndBatch(db.allocations) ==> OneRowPerLineAndBatch(db'.allocations)
    ensures Tables(db')
    ensures forall p :: p != o ==> SameAllocationsFor(db.allocations, db'.allocations, p)
  {
    hide OneRowPerLineAndBatch, SameAllocationsFor, AllocationsOk, IsActive;
    WeakenedRows(db, db', o);
    WeakenedAllocations(db, db', o);
    forall k | 0 <= k < |db'.offers| ensures OfferOk(db', k) {
      assert OfferOk(db, k);
    }
    forall l | l in db'.lines ensures LineOk(db', l) {
      assert LineOk(db, l);
    }
  }

  lemma WeakenedStock(db: Db, db': Db, o: nat)
    requires StockOk(db) && Weakened(db, db', o)
    requires db' == db.(allocations := db'.allocations)
    ensures StockOk(db')
  {
    forall b | 0 <= b < |db'.batches| ensures BatchOk(db', b) {
      assert BatchOk(db, b);
      TotalLe(db'.allocations, db'.nextAllocation, ActiveOn(b, db.now), db.allocations, ActiveOn(b, db.now));
    }
  }

  /** Cancelling all or all temporary RESERVED rows of an order. */
  lemma CancelEffect(db: Db, o: nat, q: Query, db': Db)
    requires Tables(db) && StockOk(db) && OneRowPerLineAndBatch(db.allocations)
    requires q == ReservedBy(o) || q == TemporaryBy(o)
    requires db' == db.(allocations := CancelMatching(db.allocations, q))
    ensures Tables(db') && StockOk(db') && OneRowPerLineAndBatch(db'.allocations)
    ensures NothingConsumed(db.allocations, o) ==> NothingConsumed(db'.allocations, o)
    ensures q == ReservedBy(o) ==> HoldsNothing(db'.allocations, o)
    ensures forall p :: p != o ==> SameAllocationsFor(db.allocations, db'.allocations, p)
  {
    hide Tables, StockOk, OneRowPerLineAndBatch, Weakened, CancelMatching, NothingConsumed, HoldsNothing, SameAllocationsFor;
    CancelledRows(db, o, q, db');
    WeakenedTables(db, db', o);
    WeakenedStock(db, db', o);
  }

  lemma CancelledRows(db: Db, o: nat, q: Query, db': Db)
    requires q == ReservedBy(o) || q == TemporaryBy(o)
    requires db' == db.(allocations := CancelMatching(db.allocations, q))
    ensures Weakened(db, db', o)
    ensures NothingConsumed(db.allocations, o) ==> NothingConsumed(db'.allocations, o)
    ensures q == ReservedBy(o) ==> HoldsNothing(db'.allocations, o)
  {
  }

  /** A retail draft holds temporary rows only, so cancelling those leaves nothing reserved. */
  lemma TemporaryIsAll(db: Db, o: nat)
    requires AllOrNothing(db, o)
    ensures HoldsNothing(CancelMatching(db.allocations, TemporaryBy(o)), o)
  {
  }

  // ---------- The transactions ----------

  lemma PlaceBusinessKeepsInv(db: Db, o: nat, db': Db)
    requires Inv(db) && OfferKeysOk(db) && PlaceBusinessSpec(db, o) == Ok(db')
    ensures Inv(db')
    ensures forall p :: p != o ==> SameAllocationsFor(db.allocations, db'.allocations, p)
  {
    hide ReserveLinesSpec, StockOk, OneRowPerLineAndBatch, OffersOk, AllocationsOk, KeysOk, SameAllocationsFor;
    var prepared := PrepareBusinessSpec(db, o).value;
    LineIdsFacts(db, o);
    assert OrderOk(db, o);
    ReserveOrderEffect(db, o, Business, None, prepared);
    StatusChange(db, prepared, o, Placed, db');
    TablesGiveKeys(db);
    TablesGiveKeys(db');
    PaymentsStatusFrame(db, db', o);
  }

  /** After an order's rows changed, moving the order itself completes the step. */
  lemma StatusChange(db: Db, mid: Db, o: nat, status: OrderStatus, db': Db)
    requires Tables(db) && OrdersOk(db) && Tables(mid) && StockOk(mid) && OneRowPerLineAndBatch(mid.allocations)
    requires o in db.orders && mid.orders == db.orders && mid.lines == db.lines && db.nextAllocation <= mid.nextAllocation
    requires forall p :: p != o ==> SameAllocationsFor(db.allocations, mid.allocations, p)
    requires db' == mid.(orders := mid.orders[o := mid.orders[o].(status := status)])
    requires OrderOk(db', o)
    ensures Tables(db') && StockOk(db') && OneRowPerLineAndBatch(db'.allocations) && OrdersOk(db')
  {
    MovedTables(mid, o, status, db');
    forall b | 0 <= b < |db'.batches| ensures BatchOk(db', b) {
      assert BatchOk(mid, b);
    }
    OrdersFrame(db, db', o);
  }

  lemma MovedTables(mid: Db, o: nat, status: OrderStatus, db': Db)
    requires Tables(mid) && o in mid.orders
    requires db' == mid.(orders := mid.orders[o := mid.orders[o].(status := status)])
    ensures Tables(db')
  {
    forall k | 0 <= k < |db'.offers| ensures OfferOk(db', k) {
      assert OfferOk(mid, k);
    }
    forall l | l in db'.lines ensures LineOk(db', l) {
      assert LineOk(mid, l);
    }
    forall i | i in db'.allocations ensures AllocationOk(db', i) {
      assert AllocationOk(mid, i);
    }
  }

  /** Moving one order along its lifecycle keeps payments right, unless a retail draft is placed. */
  lemma PaymentsStatusFrame(db: Db, db': Db, o: nat)
    requires LineKeysBelow(db) && LineKeysBelow(db')
    requires PaymentsOk(db) && db'.attempts == db.attempts && db'.lines == db.lines && db'.nextLine == db.nextLine
    requires o in db.orders && db'.orders.Keys == db.orders.Keys
    requires forall p :: p in db.orders && p != o ==> db'.orders[p] == db.orders[p]
    requires db'.orders[o].channel == db.orders[o].channel
    requires !db'.orders[o].status.Draft?
    requires db.orders[o].channel.Business? || !db.orders[o].status.Draft? || db'.orders[o].status.Cancelled?
    requires db.orders[o].status.Cancelled? ==> db'.orders[o].status.Cancelled?
    ensures PaymentsOk(db')
  {
    forall a | a in db'.attempts ensures AttemptOk(db', a) {
      assert AttemptOk(db, a);
    }
    forall p | p in db'.orders ensures PaidOk(db', p) {
      assert PaidOk(db, p);
    }
  }

  lemma CancelKeepsInv(db: Db, o: nat, db': Db)
    requires Inv(db) && CancelSpec(db, o) == Ok(db')
    ensures Inv(db')
  {
    hide StockOk, OneRowPerLineAndBatch;
    var mid := db.(allocations := CancelMatching(db.allocations, ReservedBy(o)));
    CancelEffect(db, o, ReservedBy(o), mid);
    assert OrderOk(db, o);
    StatusChange(db, mid, o, OrderStatus.Cancelled, db');
    TablesGiveKeys(db);
    TablesGiveKeys(db');
    PaymentsStatusFrame(db, db', o);
  }

  lemma DeliverKeepsInv(db: Db, o: nat, db': Db)
    requires Inv(db) && DeliverSpec(db, o) == Ok(db')
    ensures Inv(db')
  {
    hide StockOk, OneRowPerLineAndBatch;
    assert OrderOk(db, o);
    if Shipped(db, o) {
      MovedTables(db, o, Delivered, db');
      ShippedFrame(db, db', o);
    }
    StatusChange(db, db, o, Delivered, db');
    TablesGiveKeys(db);
    TablesGiveKeys(db');
    PaymentsStatusFrame(db, db', o);
  }
}
