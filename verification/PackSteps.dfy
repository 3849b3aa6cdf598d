/** Packing: it can always be done, and it keeps the invariant. */
module PackSteps {
  import opened Common
  import opened Records
  import opened Pricing
  import opened Reservations
  import opened ReservationFacts
  import opened Orders
  import opened Invariant
  import opened OrderSteps

  /** What a placed order holds on a batch is part of the batch's active reservations. */
  lemma HeldIsActive(db: Db, o: nat, b: nat)
    requires Deadline(db.allocations, o, None)
    ensures Held(db, o, b) <= ActiveReserved(db, b)
  {
    TotalLe(db.allocations, db.nextAllocation, HeldOn(o, b), db.allocations, ActiveOn(b, db.now));
  }

  /** Every pick of a placed order passes the batch's availability and quantity checks. */
  lemma EveryPickPasses(db: Db, o: nat, b: nat)
    requires StockOk(db) && Deadline(db.allocations, o, None) && b < |db.batches|
    ensures PickFor(db, o, b).Ok?
  {
    HeldIsActive(db, o, b);
    assert BatchOk(db, b);
  }

  lemma CoveredHoldsSomething(db: Db, o: nat, until: Option<int>)
    requires AllocationsOk(db) && Covered(db, o, until)
    ensures !HoldsNothing(db.allocations, o)
  {
    var l :| l in db.lines && db.lines[l].order == o;
    assert LineHeld(db, l);
    var i := TotalWitness(db.allocations, db.nextAllocation, ReservedFor(l));
    assert AllocationOk(db, i);
    assert Matches(db.allocations[i], ReservedBy(o));
  }

  /** In every state satisfying the invariant, a placed order can be packed: it holds something, and
      every pick passes. */
  lemma PackingNeverFails(db: Db, o: nat)
    requires Inv(db) && o in db.orders && db.orders[o].status.Placed?
    ensures PackSpec(db, o).Ok?
    ensures !HoldsNothing(db.allocations, o)
    ensures forall b :: 0 <= b < |db.batches| ==> PickFor(db, o, b).Ok?
  {
    hide Held, HoldsNothing, PickFor, PickedBatches, ConsumeMatching, PaymentsOk, OneRowPerLineAndBatch, StockOk, Deadline;
    assert OrderOk(db, o);
    CoveredHoldsSomething(db, o, None);
    forall b | 0 <= b < |db.batches| ensures PickFor(db, o, b).Ok? {
      EveryPickPasses(db, o, b);
    }
  }

  // ---------- What packing changes ----------

  /** The consumed state before the order row and the marks change. */
  function ConsumedState(db: Db, o: nat): Db {
    db.(batches := PickedBatches(db, o), allocations := ConsumeMatching(db.allocations, o))
  }

  /** Units leave the batch exactly as the order's reservations on it do. */
  lemma ConsumedActive(db: Db, o: nat, b: nat)
    requires Deadline(db.allocations, o, None)
    ensures ActiveReserved(ConsumedState(db, o), b) == ActiveReserved(db, b) - Held(db, o, b)
  {
    var t' := ConsumeMatching(db.allocations, o);
    TotalSplits(db.allocations, db.nextAllocation, ActiveOn(b, db.now), t', ActiveOn(b, db.now), db.allocations, HeldOn(o, b));
  }

  lemma ConsumedStock(db: Db, o: nat)
    requires StockOk(db) && Deadline(db.allocations, o, None)
    ensures StockOk(ConsumedState(db, o))
  {
    var db' := ConsumedState(db, o);
    forall b | 0 <= b < |db'.batches| ensures BatchOk(db', b) {
      assert BatchOk(db, b);
      HeldIsActive(db, o, b);
      ConsumedActive(db, o, b);
      EveryPickPasses(db, o, b);
    }
  }

  lemma PickingKeepsProduct(db: Db, o: nat, b: nat)
    requires b < |db.batches|
    ensures PickedBatch(db, o, b).product == db.batches[b].product
  {
  }

  lemma ConsumedTables(db: Db, o: nat)
    requires Tables(db)
    ensures Tables(ConsumedState(db, o))
  {
    hide PickedBatch;
    var db' := ConsumedState(db, o);
    forall b | 0 <= b < |db'.batches| ensures db'.batches[b].product == db.batches[b].product {
      PickingKeepsProduct(db, o, b);
    }
    forall k | 0 <= k < |db'.offers| ensures OfferOk(db', k) {
      assert OfferOk(db, k);
    }
    forall l | l in db'.lines ensures LineOk(db', l) {
      assert LineOk(db, l);
    }
    forall i | i in db'.allocations ensures AllocationOk(db', i) {
      assert AllocationOk(db, i);
    }
  }

  lemma ConsumedRowsApart(t: Allocations, o: nat)
    requires OneRowPerLineAndBatch(t)
    ensures OneRowPerLineAndBatch(ConsumeMatching(t, o))
    ensures forall p :: p != o ==> SameAllocationsFor(t, ConsumeMatching(t, o), p)
  {
  }

  /** The order's reserved units become its consumed units, line by line. */
  lemma ConsumedShipped(db: Db, o: nat)
    requires Tables(db) && Covered(db, o, None) && NothingConsumed(db.allocations, o)
    ensures Shipped(ConsumedState(db, o), o)
  {
    hide OffersOk, LinesOk, KeysOk, PickedBatches;
    var db' := ConsumedState(db, o);
    var l0 :| l0 in db.lines && db.lines[l0].order == o;
    assert l0 in db'.lines;
    forall l | l in db'.lines && db'.lines[l].order == o ensures LineShipped(db', l) {
      assert LineHeld(db, l);
      forall i | 0 <= i < db.nextAllocation
        ensures Weight(db'.allocations, i, ConsumedFor(l)) == Weight(db.allocations, i, ReservedFor(l))
      {
        if i in db.allocations {
          assert AllocationOk(db, i);
        }
      }
      TotalSame(db'.allocations, db.nextAllocation, ConsumedFor(l), db.allocations, ReservedFor(l));
    }
  }

  lemma PackKeepsInv(db: Db, o: nat, db': Db)
    requires Inv(db) && PackSpec(db, o) == Ok(db')
    ensures Inv(db')
  {
    hide StockOk, OneRowPerLineAndBatch, OffersOk, LinesOk, AllocationsOk, KeysOk, PickFor, HoldsNothing, PaymentsOk;
    var consumed := ConsumedState(db, o);
    var mid := Unmarked(consumed, o);
    assert OrderOk(db, o);
    ConsumedStock(db, o);
    ConsumedTables(db, o);
    ConsumedRowsApart(db.allocations, o);
    UnmarkedIsFine(consumed, o);
    PackedOrderIsShipped(db, o, db');
    StatusChange(db, mid, o, Packed, db');
    TablesGiveKeys(db);
    TablesGiveKeys(db');
    PaymentsStatusFrame(db, db', o);
  }

  lemma PackedOrderIsShipped(db: Db, o: nat, db': Db)
    requires Tables(db) && o in db.orders && Covered(db, o, None) && NothingConsumed(db.allocations, o)
    requires db' == Unmarked(ConsumedState(db, o), o).(orders := db.orders[o := db.orders[o].(status := Packed)])
    ensures Shipped(db', o)
  {
    hide OffersOk, LinesOk, AllocationsOk, KeysOk, Shipped, PickedBatches, ConsumeMatching, Covered, NothingConsumed;
    var consumed := ConsumedState(db, o);
    var mid := Unmarked(consumed, o);
    ConsumedTables(db, o);
    ConsumedShipped(db, o);
    UnmarkedTables(consumed, o);
    MovedTables(mid, o, Packed, db');
    ShippedFrame(consumed, db', o);
  }

  lemma UnmarkedTables(db: Db, o: nat)
    requires Tables(db)
    ensures Tables(Unmarked(db, o))
  {
    var db' := Unmarked(db, o);
    forall k | 0 <= k < |db'.offers| ensures OfferOk(db', k) {
      assert OfferOk(db, k);
    }
    forall l | l in db'.lines ensures LineOk(db', l) {
      assert LineOk(db, l);
    }
    forall i | i in db'.allocations ensures AllocationOk(db', i) {
      assert AllocationOk(db, i);
    }
  }

  lemma UnmarkedIsFine(db: Db, o: nat)
    requires Tables(db) && StockOk(db)
    ensures Tables(Unmarked(db, o)) && StockOk(Unmarked(db, o))
  {
    UnmarkedTables(db, o);
    forall b | 0 <= b < |db.batches| ensures BatchOk(Unmarked(db, o), b) {
      assert BatchOk(db, b);
    }
  }

  /** Packing clears the order's checklist and no other mark. */
  lemma PackingClearsTheChecklist(db: Db, o: nat, db': Db, i: nat)
    requires PackSpec(db, o) == Ok(db') && i in db.allocations
    ensures i in db'.marks <==> i in db.marks && db.allocations[i].order != o
  {
    hide PickFor, HoldsNothing;
  }
}
