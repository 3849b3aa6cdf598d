/**
 What reserving does, told in the columns of the tables: which batches an offer may sell from, what
 the new rows lie on, and that no batch is skipped for one that expires later.
 */
module PlacementLaws {
  import opened Common
  import opened Records
  import opened Planning
  import opened Pricing
  import opened ReservationSelectors
  import opened Reservations
  import opened ReservationFacts
  import opened Placement
  import opened PlacementFacts

  // ---------- Pools ----------

  /** Offer k may sell from batch b: the offer and its product are on; the batch is active, has units
      and expires after today; and it is the offer's own batch or, for a product-wide offer, a batch of
      the product that no enabled, priced offer of the same channel has for its own. */
  ghost predicate SellsFrom(db: Db, k: nat, b: nat) {
    && k < |db.offers| && db.offers[k].product < |db.products| && b < |db.batches|
    && db.offers[k].enabled && db.products[db.offers[k].product].active
    && db.batches[b].status.Active? && db.batches[b].quantity > 0 && db.batches[b].bestBefore > db.today
    && (match db.offers[k].batch
        case Some(own) => b == own
        case None =>
          && db.batches[b].product == db.offers[k].product
          && forall j ::
               (0 <= j < |db.offers| && db.offers[j].channel == db.offers[k].channel && db.offers[j].enabled
                && EUR in db.offers[j].amounts) ==> db.offers[j].batch != Some(b))
  }

  lemma PoolsAreSellable(db: Db, k: nat, b: nat)
    requires k < |db.offers| && OfferOk(db, k)
    ensures b in Pool(db, k, EUR) <==> SellsFrom(db, k, b)
    ensures b in RetailPool(db, k, EUR) <==> SellsFrom(db, k, b) && db.offers[k].channel.Retail? && EUR in db.offers[k].amounts
  {
    if b in Pool(db, k, EUR) {
      forall j | 0 <= j < |db.offers| && db.offers[j].channel == db.offers[k].channel && db.offers[j].enabled
        && EUR in db.offers[j].amounts && db.offers[k].batch.None?
        ensures db.offers[j].batch != Some(b)
      {
        assert !Claims(db.offers[j], db.offers[k].channel, EUR, b);
      }
    }
  }

  /** The channel may sell a line exactly when the line's offer is one of the channel and of the line's
      product, offer and product are on, and the offer has an EUR price where its channel needs one. */
  lemma MaySellExactly(db: Db, l: nat, channel: Channel)
    requires OfferKeysOk(db) && l in db.lines
    ensures var row := db.lines[l];
            row.offer < |db.offers| && db.offers[row.offer].product < |db.products|
            && (MaySell(db, l, channel) <==>
                  && db.offers[row.offer].product == row.product
                  && db.offers[row.offer].channel == channel
                  && db.offers[row.offer].enabled && db.products[row.product].active
                  && (channel.Retail? || db.offers[row.offer].batch.Some? ==> EUR in db.offers[row.offer].amounts))
  {
    assert OfferOk(db, db.lines[l].offer);
  }

  /** A line of its offer's product is refused for its offer on the business channel alone; any other
      refusal is a shortage, and it reports the quantity asked, the free units and their difference. */
  lemma RefusalsAreExact(db: Db, l: nat, channel: Channel, until: Option<int>)
    requires OfferKeysOk(db) && l in db.lines && ReserveOneSpec(db, l, channel, until).Err?
    requires db.offers[db.lines[l].offer].product == db.lines[l].product
    ensures OfferOk(db, db.lines[l].offer)
    ensures var q := db.lines[l].quantity;
            var units := PoolUnits(db, db.lines[l].offer, EUR);
            ReserveOneSpec(db, l, channel, until).error
            == if MaySell(db, l, channel) then InsufficientStock(q, units, q - units)
               else if channel.Business? then InvalidOrderOperation
               else InsufficientStock(q, 0, q)
  {
    hide ReserveLineSpec, Pool, RetailPool, PoolUnits;
    var k := db.lines[l].offer;
    assert OfferOk(db, k);
    if MaySell(db, l, channel) {
      SoldFromItsPool(db, l, channel);
      PoolUnitsAre(db, k);
      PoolIsActive(db, k, EUR);
      PoolFitsProduct(db, k, EUR, db.lines[l].product);
      ReserveLineIsExact(db, l, Pool(db, k, EUR), db.lines[l].quantity, until);
    } else if channel.Retail? {
      UnsoldPoolIsEmpty(db, k);
      NoUnitsInNothing(db);
      ReserveLineIsExact(db, l, [], db.lines[l].quantity, until);
    }
  }

  // ---------- Totals ----------

  /** The row holds units of batch b now: it is RESERVED, and its deadline, if any, is still to come. */
  ghost predicate HoldsNow(db: Db, i: nat, b: nat) {
    && i in db.allocations && db.allocations[i].batch == b && db.allocations[i].status == Reserved
    && match db.allocations[i].reservedUntil case None => true case Some(deadline) => db.now < deadline
  }

  /** Units of a batch that rows hold now. */
  ghost function UnitsHeld(db: Db, b: nat): int {
    Sum(db.nextAllocation, (i: nat) => if HoldsNow(db, i, b) then db.allocations[i].quantity else 0)
  }

  lemma ReservedIsSum(db: Db, b: nat)
    ensures ActiveReserved(db, b) == UnitsHeld(db, b)
  {
    TotalIsSum(db.allocations, db.nextAllocation, ActiveOn(b, db.now),
               (i: nat) => if HoldsNow(db, i, b) then db.allocations[i].quantity else 0);
  }

  /** Units on the shelf of the batches an offer may sell from that no row holds, batch by batch. */
  ghost function UnitsFree(db: Db, k: nat): int {
    Sum(|db.batches|, (b: nat) => if b < |db.batches| && SellsFrom(db, k, b)
                                  then Max(db.batches[b].quantity - UnitsHeld(db, b), 0) else 0)
  }

  lemma PoolUnitsIsSum(db: Db, k: nat)
    requires k < |db.offers| && OfferOk(db, k)
    ensures PoolUnits(db, k, EUR) == UnitsFree(db, k)
  {
    hide UnitsHeld, ActiveReserved;
    forall b: nat | b < |db.batches| ensures ActiveReserved(db, b) == UnitsHeld(db, b) {
      ReservedIsSum(db, b);
    }
    PoolBelowIsSum(db, k, |db.batches|, (b: nat) => if b < |db.batches| && SellsFrom(db, k, b)
                                                    then Max(db.batches[b].quantity - UnitsHeld(db, b), 0) else 0);
  }

  lemma {:induction false} PoolBelowIsSum(db: Db, k: nat, n: nat, f: nat -> int)
    requires k < |db.offers| && OfferOk(db, k) && n <= |db.batches|
    requires forall b: nat :: b < n ==> f(b) == if SellsFrom(db, k, b) then FreeUnits(db, b) else 0
    ensures PoolUnitsBelow(db, k, EUR, n) == Sum(n, f)
  {
    hide SellsFrom, InPool, FreeUnits, Pool;
    if n > 0 {
      PoolBelowIsSum(db, k, n - 1, f);
      PoolsAreSellable(db, k, n - 1);
      InPoolIs(db, k, n - 1);
    }
  }

  lemma InPoolIs(db: Db, k: nat, b: nat)
    requires k < |db.offers| && OfferOk(db, k) && b < |db.batches|
    ensures InPool(db, k, EUR, b) <==> b in Pool(db, k, EUR)
  {
  }

  // ---------- The rows a reservation adds ----------

  /** The row belongs to its line's order, holds stock for it until the deadline, and lies on a batch
      the line's offer may sell from. */
  ghost predicate LiesOnSellable(db: Db, row: AllocationRow, channel: Channel, until: Option<int>) {
    && row.line in db.lines && row.order == db.lines[row.line].order
    && row.status.Reserved? && row.reservedUntil == until
    && SellsFrom(db, db.lines[row.line].offer, row.batch)
    && db.offers[db.lines[row.line].offer].channel == channel
    && db.offers[db.lines[row.line].offer].product == db.lines[row.line].product == db.batches[row.batch].product
    && (channel.Retail? || db.offers[db.lines[row.line].offer].batch.Some? ==> EUR in db.offers[db.lines[row.line].offer].amounts)
  }

  lemma OneLineLiesOnSellable(db: Db, l: nat, channel: Channel, until: Option<int>, db1: Db)
    requires OfferKeysOk(db) && AllocationKeysOk(db) && l in db.lines
    requires ReserveOneSpec(db, l, channel, until) == Ok(db1)
    ensures Extends(db, db1, [l], until)
    ensures forall i :: i in db1.allocations && i !in db.allocations ==> LiesOnSellable(db, db1.allocations[i], channel, until)
  {
    hide OfferKeysOk, Pool, MaySell, LinePool, ReserveLineSpec, SellsFrom;
    var k := db.lines[l].offer;
    ReservedWasSold(db, l, channel, until);
    SoldFromItsPool(db, l, channel);
    SoldAsPriced(db, l, channel);
    PoolIsActive(db, k, EUR);
    AllocationKeysBelow(db);
    ReservedRows(db, l, Pool(db, k, EUR), db.lines[l].quantity, until, db1);
    forall i | i in db1.allocations && i !in db.allocations ensures LiesOnSellable(db, db1.allocations[i], channel, until) {
      assert NewRowOk(db, db1.allocations[i], [l], until);
      PoolsAreSellable(db, k, db1.allocations[i].batch);
    }
  }

  lemma SoldAsPriced(db: Db, l: nat, channel: Channel)
    requires OfferKeysOk(db) && l in db.lines && MaySell(db, l, channel)
    ensures var k := db.lines[l].offer;
            k < |db.offers| && (channel.Retail? || db.offers[k].batch.Some? ==> EUR in db.offers[k].amounts)
  {
  }

  /** Every row that reserving a list of lines adds belongs to a line of the list and lies on a batch
      its offer may sell from. */
  lemma {:induction false} NewRowsLieOnSellable(db: Db, ids: seq<nat>, channel: Channel, until: Option<int>, db': Db, i: nat)
    requires OfferKeysOk(db) && AllocationKeysOk(db) && AreLines(db, ids)
    requires ReserveLinesSpec(db, ids, channel, until) == Ok(db')
    requires i in db'.allocations && i !in db.allocations
    ensures db'.allocations[i].line in ids && LiesOnSellable(db, db'.allocations[i], channel, until)
    decreases |ids|
  {
    hide ReserveOneSpec, AllocationKeysOk, OfferKeysOk, LiesOnSellable;
    var db1 := ReserveOneSpec(db, ids[0], channel, until).value;
    OneLineLiesOnSellable(db, ids[0], channel, until, db1);
    ExtendsKeysOk(db, db1, [ids[0]], until);
    if i in db1.allocations {
      LaterRowsKeepEarlier(db1, ids[1..], channel, until, db', i);
      assert NewRowOk(db, db1.allocations[i], [ids[0]], until);
    } else {
      NewRowsLieOnSellable(db1, ids[1..], channel, until, db', i);
      SellableFrame(db, db1, db'.allocations[i], channel, until);
    }
  }

  lemma SellableFrame(db: Db, db1: Db, row: AllocationRow, channel: Channel, until: Option<int>)
    requires db1 == db.(allocations := db1.allocations, nextAllocation := db1.nextAllocation)
    requires LiesOnSellable(db1, row, channel, until)
    ensures LiesOnSellable(db, row, channel, until)
  {
  }

  lemma {:induction false} LaterRowsKeepEarlier(db: Db, ids: seq<nat>, channel: Channel, until: Option<int>, db': Db, i: nat)
    requires OfferKeysOk(db) && AllocationKeysOk(db) && AreLines(db, ids)
    requires ReserveLinesSpec(db, ids, channel, until) == Ok(db')
    requires i in db.allocations
    ensures i in db'.allocations && db'.allocations[i] == db.allocations[i]
    decreases |ids|
  {
    hide ReserveOneSpec, AllocationKeysOk, OfferKeysOk;
    if ids != [] {
      var db1 := ReserveOneSpec(db, ids[0], channel, until).value;
      OneLineLiesOnSellable(db, ids[0], channel, until, db1);
      ExtendsKeysOk(db, db1, [ids[0]], until);
      LaterRowsKeepEarlier(db1, ids[1..], channel, until, db', i);
    }
  }

  // ---------- First expired, first out ----------

  /** Batch b goes before batch c: by date, then by code, then by key. */
  ghost predicate ExpiresBefore(db: Db, b: nat, c: nat)
    requires b < |db.batches| && c < |db.batches|
  {
    || db.batches[b].bestBefore < db.batches[c].bestBefore
    || (db.batches[b].bestBefore == db.batches[c].bestBefore && CodeBefore(db.batches[b].code, db.batches[c].code))
    || (db.batches[b].bestBefore == db.batches[c].bestBefore && db.batches[b].code == db.batches[c].code && b < c)
  }

  lemma {:induction false} PickedIsTaken(picks: seq<BatchPick>, j: nat)
    requires j < |picks|
    ensures Taken(picks, picks[j].batchPk) > 0
  {
    if j > 0 {
      PickedIsTaken(picks[1..], j - 1);
    }
  }

  /** When a line takes units of one batch, it takes all free units of each batch of its pool that goes
      before it. */
  lemma LineEmptiesEarlierBatches(db: Db, l: nat, channel: Channel, until: Option<int>, db1: Db, b: nat, c: nat)
    requires OfferKeysOk(db) && AllocationKeysOk(db) && l in db.lines
    requires until.None? || until.value > db.now
    requires ReserveOneSpec(db, l, channel, until) == Ok(db1)
    requires SellsFrom(db, db.lines[l].offer, b) && SellsFrom(db, db.lines[l].offer, c) && ExpiresBefore(db, b, c)
    requires HeldForLine(db1, l, c) > HeldForLine(db, l, c)
    ensures HeldForLine(db1, l, b) - HeldForLine(db, l, b) == Max(db.batches[b].quantity - ActiveReserved(db, b), 0)
    ensures ActiveReserved(db1, b) == Max(ActiveReserved(db, b), db.batches[b].quantity)
  {
    hide OfferKeysOk, Pool, SellsFrom, CodeBefore, Plan, WithRows, HeldForLine, HasNegative, HasNegativeStock;
    var k := db.lines[l].offer;
    ReservedOne(db, l, channel, until, db1);
    PoolsAreSellable(db, k, b);
    PoolsAreSellable(db, k, c);
    var pool := Pool(db, k, EUR);
    var picks := LinePlan(db, pool, db.lines[l].quantity).value;
    PoolIsActive(db, k, EUR);
    AvailabilityFacts(db, pool);
    AllocationKeysBelow(db);
    NewRowsHold(db, l, until, picks, b);
    NewRowsHold(db, l, until, picks, c);
    AddedRowsTotals(db, l, pool, until, picks, b, l);
    var i :| 0 <= i < |pool| && pool[i] == b;
    var j :| 0 <= j < |pool| && pool[j] == c;
    EarlierStockIsTakenFirst(Availability(db, pool), db.lines[l].quantity, ReservedMap(db, pool), i, j);
    assert GetOrZero(ReservedMap(db, pool), b) == ActiveReserved(db, b);
  }

  lemma OneLineSkipsNothing(db: Db, l: nat, channel: Channel, until: Option<int>, db1: Db, i: nat, b: nat)
    requires OfferKeysOk(db) && AllocationKeysOk(db) && l in db.lines
    requires until.None? || until.value > db.now
    requires ReserveOneSpec(db, l, channel, until) == Ok(db1)
    requires i in db1.allocations && i !in db.allocations && SellsFrom(db, db.lines[l].offer, b)
    requires db1.allocations[i].batch < |db.batches| && ExpiresBefore(db, b, db1.allocations[i].batch)
    ensures ActiveReserved(db1, b) >= db.batches[b].quantity
  {
    hide OfferKeysOk, Pool, LinePlan, HeldForLine, SellsFrom, ExpiresBefore, AddAllocations;
    var c := db1.allocations[i].batch;
    OneLineLiesOnSellable(db, l, channel, until, db1);
    ReservedOne(db, l, channel, until, db1);
    assert NewRowOk(db, db1.allocations[i], [l], until);
    var picks := LinePlan(db, Pool(db, db.lines[l].offer, EUR), db.lines[l].quantity).value;
    AllocationKeysBelow(db);
    AddedRows(db.allocations, db.nextAllocation, db.lines[l].order, l, until, picks);
    PickedIsTaken(picks, i - db.nextAllocation);
    NewRowsHold(db, l, until, picks, c);
    LineEmptiesEarlierBatches(db, l, channel, until, db1, b, c);
  }

  lemma OneLineOnlyAdds(db: Db, l: nat, channel: Channel, until: Option<int>, db1: Db, b: nat)
    requires OfferKeysOk(db) && AllocationKeysOk(db) && l in db.lines
    requires until.None? || until.value > db.now
    requires ReserveOneSpec(db, l, channel, until) == Ok(db1)
    ensures ActiveReserved(db1, b) >= ActiveReserved(db, b)
  {
    hide OfferKeysOk, LinePlan;
    ReservedOne(db, l, channel, until, db1);
    AllocationKeysBelow(db);
    var pool := Pool(db, db.lines[l].offer, EUR);
    AddedRowsTotals(db, l, pool, until, LinePlan(db, pool, db.lines[l].quantity).value, b, l);
  }

  lemma {:induction false} LinesOnlyAdd(db: Db, ids: seq<nat>, channel: Channel, until: Option<int>, db': Db, b: nat)
    requires OfferKeysOk(db) && AllocationKeysOk(db) && AreLines(db, ids)
    requires until.None? || until.value > db.now
    requires ReserveLinesSpec(db, ids, channel, until) == Ok(db')
    ensures ActiveReserved(db', b) >= ActiveReserved(db, b)
    decreases |ids|
  {
    hide ReserveOneSpec, AllocationKeysOk, OfferKeysOk;
    if ids != [] {
      var db1 := ReserveOneSpec(db, ids[0], channel, until).value;
      OneLineLiesOnSellable(db, ids[0], channel, until, db1);
      ExtendsKeysOk(db, db1, [ids[0]], until);
      OneLineOnlyAdds(db, ids[0], channel, until, db1, b);
      LinesOnlyAdd(db1, ids[1..], channel, until, db', b);
    }
  }

  /** No batch is skipped: once a list of lines is reserved, each batch that goes before one that was
      taken, and that the same offer may sell from, has no free unit left. */
  lemma {:induction false} NoBatchIsSkipped(db: Db, ids: seq<nat>, channel: Channel, until: Option<int>, db': Db, i: nat, b: nat)
    requires OfferKeysOk(db) && AllocationKeysOk(db) && AreLines(db, ids)
    requires until.None? || until.value > db.now
    requires ReserveLinesSpec(db, ids, channel, until) == Ok(db')
    requires i in db'.allocations && i !in db.allocations
    requires db'.allocations[i].line in db.lines && SellsFrom(db, db.lines[db'.allocations[i].line].offer, b)
    requires db'.allocations[i].batch < |db.batches| && ExpiresBefore(db, b, db'.allocations[i].batch)
    ensures ActiveReserved(db', b) >= db.batches[b].quantity
    decreases |ids|
  {
    hide ReserveOneSpec, AllocationKeysOk, OfferKeysOk, LiesOnSellable, SellsFrom;
    var db1 := ReserveOneSpec(db, ids[0], channel, until).value;
    OneLineLiesOnSellable(db, ids[0], channel, until, db1);
    ExtendsKeysOk(db, db1, [ids[0]], until);
    if i in db1.allocations {
      LaterRowsKeepEarlier(db1, ids[1..], channel, until, db', i);
      assert NewRowOk(db, db1.allocations[i], [ids[0]], until);
      OneLineSkipsNothing(db, ids[0], channel, until, db1, i, b);
      LinesOnlyAdd(db1, ids[1..], channel, until, db', b);
    } else {
      SellsFromFrame(db, db1, db.lines[db'.allocations[i].line].offer, b);
      NoBatchIsSkipped(db1, ids[1..], channel, until, db', i, b);
    }
  }

  lemma SellsFromFrame(db: Db, db1: Db, k: nat, b: nat)
    requires db1 == db.(allocations := db1.allocations, nextAllocation := db1.nextAllocation)
    ensures SellsFrom(db, k, b) <==> SellsFrom(db1, k, b)
  {
  }

  /** The row holds stock for its line until the deadline, on a batch its offer may sell from, and
      every batch the offer could have sold from before that one has no free unit. */
  ghost predicate PickedFefo(db: Db, i: nat, channel: Channel, until: Option<int>) {
    && i in db.allocations
    && LiesOnSellable(db, db.allocations[i], channel, until)
    && db.allocations[i].batch < |db.batches|
    && forall b: nat ::
         b < |db.batches| && SellsFrom(db, db.lines[db.allocations[i].line].offer, b) && ExpiresBefore(db, b, db.allocations[i].batch)
         ==> ActiveReserved(db, b) >= db.batches[b].quantity
  }

  /** After a list of lines is reserved, every new row is picked first expired, first out. */
  lemma ReservedListIsFefo(db: Db, ids: seq<nat>, channel: Channel, until: Option<int>, db': Db, i: nat)
    requires OfferKeysOk(db) && AllocationKeysOk(db) && AreLines(db, ids)
    requires until.None? || until.value > db.now
    requires ReserveLinesSpec(db, ids, channel, until) == Ok(db')
    requires i in db'.allocations && i !in db.allocations
    ensures PickedFefo(db', i, channel, until) && db'.allocations[i].line in ids
  {
    hide ReserveLinesSpec, OfferKeysOk, AllocationKeysOk, SellsFrom, ExpiresBefore, LiesOnSellable;
    NewRowsLieOnSellable(db, ids, channel, until, db', i);
    SellableFrame(db', db, db'.allocations[i], channel, until);
    SellableParts(db', db'.allocations[i], channel, until);
    forall b: nat | b < |db'.batches| && SellsFrom(db', db'.lines[db'.allocations[i].line].offer, b)
      && ExpiresBefore(db', b, db'.allocations[i].batch)
      ensures ActiveReserved(db', b) >= db'.batches[b].quantity
    {
      SellsFromFrame(db, db', db.lines[db'.allocations[i].line].offer, b);
      SameExpiry(db, db', b, db'.allocations[i].batch);
      NoBatchIsSkipped(db, ids, channel, until, db', i, b);
    }
  }

  lemma SellableParts(db: Db, row: AllocationRow, channel: Channel, until: Option<int>)
    requires LiesOnSellable(db, row, channel, until)
    ensures row.line in db.lines && row.batch < |db.batches|
  {
  }

  lemma SameExpiry(db: Db, db': Db, b: nat, c: nat)
    requires db'.batches == db.batches && b < |db.batches| && c < |db.batches|
    ensures ExpiresBefore(db', b, c) <==> ExpiresBefore(db, b, c)
  {
  }

  /** Orders, payments and marks do not matter. */
  lemma PickedFefoFrame(db: Db, db': Db, i: nat, channel: Channel, until: Option<int>)
    requires PickedFefo(db, i, channel, until)
    requires db' == db.(orders := db'.orders, attempts := db'.attempts, nextAttempt := db'.nextAttempt, marks := db'.marks)
    ensures PickedFefo(db', i, channel, until)
  {
    hide ExpiresBefore;
    forall b: nat | b < |db'.batches| && SellsFrom(db', db'.lines[db'.allocations[i].line].offer, b)
      && ExpiresBefore(db', b, db'.allocations[i].batch)
      ensures ActiveReserved(db', b) >= db'.batches[b].quantity
    {
      SameExpiry(db, db', b, db'.allocations[i].batch);
      assert SellsFrom(db, db.lines[db.allocations[i].line].offer, b);
    }
  }
}
