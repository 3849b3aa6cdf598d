/** The invariant of the whole database, and how its per-order part frames. */
module Invariant {
  import opened Common
  import opened Records
  import opened Pricing
  import opened Reservations
  import opened ReservationFacts
  import opened Placement
  import opened OrderEdit
  import opened Payments

  // ---------- Referential integrity ----------

  ghost predicate LineOk(db: Db, l: nat)
    requires l in db.lines
  {
    var row := db.lines[l];
    && l < db.nextLine
    && row.order in db.orders
    && row.offer < |db.offers|
    && row.product == db.offers[row.offer].product
    && db.offers[row.offer].channel == db.orders[row.order].channel
  }

  ghost predicate LinesOk(db: Db) {
    forall l :: l in db.lines ==> LineOk(db, l)
  }

  ghost predicate AllocationOk(db: Db, i: nat)
    requires i in db.allocations
  {
    var a := db.allocations[i];
    && i < db.nextAllocation
    && a.batch < |db.batches|
    && a.line in db.lines
    && db.lines[a.line].order == a.order
    && db.lines[a.line].product == db.batches[a.batch].product
  }

  ghost predicate AllocationsOk(db: Db) {
    forall i :: i in db.allocations ==> AllocationOk(db, i)
  }

  ghost predicate KeysOk(db: Db) {
    && (forall o :: o in db.orders ==> o < db.nextOrder)
    && (forall a :: a in db.attempts ==> a < db.nextAttempt && db.attempts[a].order in db.orders)
    && (forall i :: i in db.marks ==> i in db.allocations)
  }

  ghost predicate Tables(db: Db) {
    OffersOk(db) && LinesOk(db) && AllocationsOk(db) && KeysOk(db)
  }

  lemma TablesGiveKeys(db: Db)
    requires OffersOk(db) && LinesOk(db)
    ensures OfferKeysOk(db) && LineKeysBelow(db)
  {
    assert forall l :: l in db.lines ==> LineOk(db, l);
  }

  lemma AllocationKeys(db: Db)
    requires AllocationsOk(db)
    ensures AllocationKeysOk(db)
  {
    assert forall i :: i in db.allocations ==> AllocationOk(db, i);
  }

  // ---------- Allocations ----------

  /** A line never has two open (not cancelled) allocations on one batch. */
  ghost predicate OneRowPerLineAndBatch(t: Allocations) {
    forall i, j ::
      i in t && j in t && i != j && !t[i].status.Cancelled? && !t[j].status.Cancelled? && t[i].line == t[j].line
      ==> t[i].batch != t[j].batch
  }

  ghost predicate NothingConsumed(t: Allocations, o: nat) {
    forall i :: i in t && t[i].order == o ==> !t[i].status.Consumed?
  }

  ghost predicate HasLine(lines: Lines, o: nat) {
    exists l :: l in lines && lines[l].order == o
  }

  ghost predicate LineHeld(db: Db, l: nat)
    requires l in db.lines
  {
    Total(db.allocations, db.nextAllocation, ReservedFor(l)) == db.lines[l].quantity
  }

  ghost predicate LineShipped(db: Db, l: nat)
    requires l in db.lines
  {
    Total(db.allocations, db.nextAllocation, ConsumedFor(l)) == db.lines[l].quantity
  }

  ghost predicate Deadline(t: Allocations, o: nat, until: Option<int>) {
    forall i :: i in t && Matches(t[i], ReservedBy(o)) ==> t[i].reservedUntil == until
  }

  /** The order's RESERVED rows cover every line exactly, all with the same deadline. */
  ghost predicate Covered(db: Db, o: nat, until: Option<int>) {
    && HasLine(db.lines, o)
    && Deadline(db.allocations, o, until)
    && (forall l :: l in db.lines && db.lines[l].order == o ==> LineHeld(db, l))
  }

  /** The order's CONSUMED rows cover every line exactly and nothing is reserved. */
  ghost predicate Shipped(db: Db, o: nat) {
    && HasLine(db.lines, o)
    && HoldsNothing(db.allocations, o)
    && (forall l :: l in db.lines && db.lines[l].order == o ==> LineShipped(db, l))
  }

  /** A hold that is all or nothing: no RESERVED row, or full coverage with one common deadline. */
  ghost predicate AllOrNothing(db: Db, o: nat) {
    HoldsNothing(db.allocations, o) || exists d: int :: Covered(db, o, Some(d))
  }

  ghost predicate OrderOk(db: Db, o: nat)
    requires o in db.orders
  {
    match db.orders[o].status
    case Draft =>
      && NothingConsumed(db.allocations, o)
      && (if db.orders[o].channel.Business? then HoldsNothing(db.allocations, o) else AllOrNothing(db, o))
    case Placed => NothingConsumed(db.allocations, o) && Covered(db, o, None)
    case Packed => Shipped(db, o)
    case Delivered => Shipped(db, o)
    case Cancelled => NothingConsumed(db.allocations, o) && HoldsNothing(db.allocations, o)
  }

  ghost predicate OrdersOk(db: Db) {
    forall o :: o in db.orders ==> OrderOk(db, o)
  }

  // ---------- Payments ----------

  const MAX_ORDER_TOTAL := 100000

  /** A retail order is priced, and its total is payable. */
  ghost predicate PricedOk(db: Db, o: nat) {
    OrderTotal(db, o).Some? && 0 < OrderTotal(db, o).value <= MAX_ORDER_TOTAL
  }

  ghost predicate AttemptOk(db: Db, a: nat)
    requires a in db.attempts
  {
    var row := db.attempts[a];
    && row.order in db.orders
    && db.orders[row.order].channel.Retail?
    && OrderTotal(db, row.order) == Some(row.amount)
    && (row.status.Succeeded? ==> !db.orders[row.order].status.Draft?)
  }

  /** At most one pending and at most one succeeded attempt per order. */
  ghost predicate AttemptsApart(attempts: map<nat, AttemptRow>) {
    forall a, b :: a in attempts && b in attempts && a != b && attempts[a].order == attempts[b].order
      && attempts[a].status == attempts[b].status
      ==> !attempts[a].status.Pending? && !attempts[a].status.Succeeded?
  }

  ghost predicate IsPaid(attempts: map<nat, AttemptRow>, o: nat) {
    exists a :: a in attempts && attempts[a].order == o && attempts[a].status.Succeeded?
  }

  /** What the order table says about payment of one order. */
  ghost predicate PaidOk(db: Db, o: nat)
    requires o in db.orders
  {
    db.orders[o].channel.Retail? ==>
      && PricedOk(db, o)
      && (db.orders[o].status.Placed? || db.orders[o].status.Packed? || db.orders[o].status.Delivered? ==> IsPaid(db.attempts, o))
  }

  ghost predicate PaymentsOk(db: Db) {
    && (forall a :: a in db.attempts ==> AttemptOk(db, a))
    && AttemptsApart(db.attempts)
    && (forall o :: o in db.orders ==> PaidOk(db, o))
  }

  // ---------- The invariant ----------

  ghost predicate Inv(db: Db) {
    && Tables(db)
    && StockOk(db)
    && OneRowPerLineAndBatch(db.allocations)
    && OrdersOk(db)
    && PaymentsOk(db)
  }

  // ---------- Framing ----------

  ghost predicate SameLinesFor(lines: Lines, lines': Lines, o: nat) {
    && (forall l :: (l in lines && lines[l].order == o) <==> (l in lines' && lines'[l].order == o))
    && (forall l :: l in lines && lines[l].order == o && l in lines' ==> lines'[l] == lines[l])
  }

  ghost predicate SameAllocationsFor(t: Allocations, t': Allocations, o: nat) {
    && (forall i :: (i in t && t[i].order == o) <==> (i in t' && t'[i].order == o))
    && (forall i :: i in t && t[i].order == o && i in t' ==> t'[i] == t[i])
  }

  lemma TotalFrame(db: Db, db': Db, o: nat, l: nat, q: Query)
    requires AllocationsOk(db) && AllocationsOk(db') && db.nextAllocation <= db'.nextAllocation
    requires SameAllocationsFor(db.allocations, db'.allocations, o)
    requires l in db.lines && db.lines[l].order == o && l in db'.lines && db'.lines[l].order == o
    requires q == ReservedFor(l) || q == ConsumedFor(l)
    ensures Total(db'.allocations, db'.nextAllocation, q) == Total(db.allocations, db.nextAllocation, q)
  {
    forall i | 0 <= i < db'.nextAllocation ensures Weight(db'.allocations, i, q) == Weight(db.allocations, i, q) {
      if i in db.allocations {
        assert AllocationOk(db, i);
      }
      if i in db'.allocations {
        assert AllocationOk(db', i);
      }
    }
    TotalSame(db'.allocations, db'.nextAllocation, q, db.allocations, q);
    AllocationKeys(db);
    TotalBeyond(db.allocations, db.nextAllocation, db'.nextAllocation, q);
  }

  /** An order whose rows in all tables are untouched stays as it was. */
  lemma CoveredFrame(db: Db, db': Db, o: nat, until: Option<int>)
    requires AllocationsOk(db) && AllocationsOk(db') && db.nextAllocation <= db'.nextAllocation
    requires SameLinesFor(db.lines, db'.lines, o) && SameAllocationsFor(db.allocations, db'.allocations, o)
    requires Covered(db, o, until)
    ensures Covered(db', o, until)
  {
    var l0 :| l0 in db.lines && db.lines[l0].order == o;
    assert l0 in db'.lines;
    forall l | l in db'.lines && db'.lines[l].order == o ensures LineHeld(db', l) {
      assert LineHeld(db, l);
      TotalFrame(db, db', o, l, ReservedFor(l));
    }
  }

  lemma ShippedFrame(db: Db, db': Db, o: nat)
    requires AllocationsOk(db) && AllocationsOk(db') && db.nextAllocation <= db'.nextAllocation
    requires SameLinesFor(db.lines, db'.lines, o) && SameAllocationsFor(db.allocations, db'.allocations, o)
    requires Shipped(db, o)
    ensures Shipped(db', o)
  {
    var l0 :| l0 in db.lines && db.lines[l0].order == o;
    assert l0 in db'.lines;
    forall l | l in db'.lines && db'.lines[l].order == o ensures LineShipped(db', l) {
      assert LineShipped(db, l);
      TotalFrame(db, db', o, l, ConsumedFor(l));
    }
  }

  lemma OrderFrame(db: Db, db': Db, o: nat)
    requires AllocationsOk(db) && AllocationsOk(db') && db.nextAllocation <= db'.nextAllocation
    requires o in db.orders && o in db'.orders && db'.orders[o] == db.orders[o]
    requires SameLinesFor(db.lines, db'.lines, o) && SameAllocationsFor(db.allocations, db'.allocations, o)
    requires OrderOk(db, o)
    ensures OrderOk(db', o)
  {
    match db.orders[o].status
    case Draft =>
      if d: int :| Covered(db, o, Some(d)) {
        CoveredFrame(db, db', o, Some(d));
      }
    case Placed => CoveredFrame(db, db', o, None);
    case Packed => ShippedFrame(db, db', o);
    case Delivered => ShippedFrame(db, db', o);
    case Cancelled =>
  }

  /** All orders but one are untouched. */
  lemma OrdersFrame(db: Db, db': Db, o: nat)
    requires AllocationsOk(db) && AllocationsOk(db') && db.nextAllocation <= db'.nextAllocation
    requires OrdersOk(db)
    requires forall p :: p in db'.orders && p != o ==>
               && p in db.orders && db'.orders[p] == db.orders[p]
               && SameLinesFor(db.lines, db'.lines, p)
               && SameAllocationsFor(db.allocations, db'.allocations, p)
    requires o in db'.orders ==> OrderOk(db', o)
    ensures OrdersOk(db')
  {
    forall p | p in db'.orders && p != o ensures OrderOk(db', p) {
      OrderFrame(db, db', p);
    }
  }

  /** Totals depend on the order's own lines only. */
  lemma OrderTotalFrame(db: Db, db': Db, o: nat)
    requires LineKeysBelow(db) && LineKeysBelow(db') && db.nextLine <= db'.nextLine
    requires SameLinesFor(db.lines, db'.lines, o)
    ensures OrderTotal(db', o) == OrderTotal(db, o)
  {
    SameTotal(db.lines, db'.lines, db'.nextLine, o);
    TotalBelowBeyond(db.lines, db.nextLine, db'.nextLine, o);
  }

  /** Payments are untouched when retail lines, orders and attempts are. */
  lemma PaymentsFrame(db: Db, db': Db)
    requires LineKeysBelow(db) && LineKeysBelow(db') && db.nextLine <= db'.nextLine
    requires PaymentsOk(db) && db'.attempts == db.attempts
    requires forall o :: o in db.orders ==> o in db'.orders && db'.orders[o] == db.orders[o]
    requires forall o :: o in db.orders && db.orders[o].channel.Retail? ==> SameLinesFor(db.lines, db'.lines, o)
    requires forall o :: o in db'.orders && o !in db.orders ==> PaidOk(db', o)
    ensures PaymentsOk(db')
  {
    forall a | a in db'.attempts ensures AttemptOk(db', a) {
      assert AttemptOk(db, a);
      OrderTotalFrame(db, db', db.attempts[a].order);
    }
    forall o | o in db'.orders ensures PaidOk(db', o) {
      if o in db.orders {
        assert PaidOk(db, o);
        if db.orders[o].channel.Retail? {
          OrderTotalFrame(db, db', o);
        }
      }
    }
  }
}
