/**
 When reserving an order's lines succeeds: lines on pairwise distinct offers draw from disjoint
 pools, so they never compete, and each needs no more than its own pool's free units.
 */
module PlacementFacts {
  import opened Common
  import opened Records
  import opened Planning
  import opened Pricing
  import opened Reservations
  import opened ReservationFacts
  import opened Placement
  import opened Orders
  import opened OrderEdit
  import opened Invariant
  import opened OrderSteps

  lemma PoolStep(db: Db, k: nat, currency: Currency, n: nat)
    requires k < |db.offers| && n < |db.batches| && OfferOk(db, k)
    ensures PoolBelow(db, k, currency, n + 1)
         == if InPool(db, k, currency, n) then PoolBelow(db, k, currency, n) + [n] else PoolBelow(db, k, currency, n)
  {
    hide InPool;
  }

  /** Summing free units over the pool is summing them over the batches that are in the pool. */
  lemma {:induction false} PoolBelowUnits(db: Db, k: nat, currency: Currency, n: nat)
    requires k < |db.offers| && n <= |db.batches| && OfferOk(db, k)
    ensures InRange(db, PoolBelow(db, k, currency, n))
    ensures UnitsIn(db, PoolBelow(db, k, currency, n)) == PoolUnitsBelow(db, k, currency, n)
  {
    hide FreeUnits, InPool, UnitsIn;
    if n == 0 {
      NoUnitsInNothing(db);
    } else {
      hide PoolBelow;
      PoolBelowUnits(db, k, currency, n - 1);
      UnitsInSnoc(db, PoolBelow(db, k, currency, n - 1), n - 1);
      PoolStep(db, k, currency, n - 1);
    }
  }

  lemma NoUnitsInNothing(db: Db)
    ensures InRange(db, []) && UnitsIn(db, []) == 0
  {
  }

  lemma UnitsInSnoc(db: Db, pool: seq<nat>, b: nat)
    requires InRange(db, pool) && b < |db.batches|
    ensures InRange(db, pool + [b]) && UnitsIn(db, pool + [b]) == UnitsIn(db, pool) + FreeUnits(db, b)
  {
    assert (pool + [b])[..|pool|] == pool;
  }

  lemma PoolFitsProduct(db: Db, k: nat, currency: Currency, product: nat)
    requires k < |db.offers| && OfferOk(db, k) && db.offers[k].product == product
    ensures PoolFits(db, product, Pool(db, k, currency))
  {
    var pool := Pool(db, k, currency);
    forall i | 0 <= i < |pool| ensures db.batches[pool[i]].product == product {
      assert pool[i] in pool;
    }
  }

  /** The retail counterpart of the business offer policy, as reserving enforces it. */
  predicate RetailOfferValid(db: Db, line: nat)
    requires OfferKeysOk(db) && line in db.lines
  {
    var row := db.lines[line];
    var f := db.offers[row.offer];
    assert OfferOk(db, row.offer);
    && f.product == row.product
    && f.channel.Retail? && EUR in f.amounts
    && db.products[f.product].active && f.enabled
  }

  /** The channel may sell the line's offer. */
  predicate MaySell(db: Db, line: nat, channel: Channel)
    requires OfferKeysOk(db) && line in db.lines
  {
    match channel
    case Business => BusinessOfferValid(db, line)
    case Retail => RetailOfferValid(db, line)
  }

  /** A line can be placed on its own: its offer may be sold, and its pool has the units. */
  ghost predicate LineFits(db: Db, l: nat, channel: Channel)
    requires OfferKeysOk(db) && l in db.lines
  {
    && MaySell(db, l, channel)
    && (assert OfferOk(db, db.lines[l].offer);
        db.lines[l].quantity <= PoolUnits(db, db.lines[l].offer, EUR))
  }

  lemma SoldFromItsPool(db: Db, l: nat, channel: Channel)
    requires OfferKeysOk(db) && l in db.lines && MaySell(db, l, channel)
    ensures var k := db.lines[l].offer;
            k < |db.offers| && OfferOk(db, k) && LinePool(db, l, channel) == Ok(Pool(db, k, EUR))
            && db.offers[k].product == db.lines[l].product
            && Sellable(db, k, EUR) && db.offers[k].channel == channel
  {
    assert OfferOk(db, db.lines[l].offer);
  }

  lemma EmptyPoolRefuses(db: Db, l: nat, quantity: pos, until: Option<int>)
    requires l in db.lines
    ensures ReserveLineSpec(db, l, [], quantity, until).Err?
  {
    ReserveLineIsExact(db, l, [], quantity, until);
    NoUnitsInNothing(db);
  }

  lemma {:induction false} IdlePoolIsEmpty(db: Db, k: nat, n: nat)
    requires k < |db.offers| && OfferOk(db, k) && n <= |db.batches|
    requires !(db.offers[k].enabled && db.products[db.offers[k].product].active)
    ensures PoolBelow(db, k, EUR, n) == []
  {
    if n > 0 {
      IdlePoolIsEmpty(db, k, n - 1);
    }
  }

  lemma UnsoldPoolIsEmpty(db: Db, k: nat)
    requires k < |db.offers| && OfferOk(db, k)
    requires var f := db.offers[k];
             !(f.channel.Retail? && EUR in f.amounts && db.products[f.product].active && f.enabled)
    ensures RetailPool(db, k, EUR) == []
  {
    if !(db.offers[k].enabled && db.products[db.offers[k].product].active) {
      IdlePoolIsEmpty(db, k, |db.batches|);
    }
  }

  lemma ForeignPoolMisfits(db: Db, k: nat, product: nat)
    requires k < |db.offers| && OfferOk(db, k) && db.offers[k].product != product
    ensures InRange(db, RetailPool(db, k, EUR))
    ensures RetailPool(db, k, EUR) == [] || !PoolFits(db, product, RetailPool(db, k, EUR))
  {
    hide Orderable, ClaimedByBatchOffer;
    var pool := RetailPool(db, k, EUR);
    assert forall i :: 0 <= i < |pool| ==> pool[i] in pool;
    if pool != [] {
      assert InPool(db, k, EUR, pool[0]);
      assert db.batches[pool[0]].product == db.offers[k].product;
    }
  }

  /** An offer the channel may not sell is refused: by its policy, or because its pool is empty or of
      another product. */
  lemma UnsoldIsRefused(db: Db, l: nat, channel: Channel, until: Option<int>)
    requires OfferKeysOk(db) && l in db.lines && !MaySell(db, l, channel)
    ensures ReserveOneSpec(db, l, channel, until).Err?
  {
    hide LinePlan, WithRows, RetailPool, PoolFits;
    var k := db.lines[l].offer;
    assert OfferOk(db, k);
    if channel.Retail? {
      EmptyPoolRefuses(db, l, db.lines[l].quantity, until);
      if db.offers[k].product != db.lines[l].product {
        ForeignPoolMisfits(db, k, db.lines[l].product);
      } else {
        UnsoldPoolIsEmpty(db, k);
      }
    }
  }

  /** Reserving one line succeeds exactly when its offer may be sold and its pool has the units. */
  lemma OneLineIsExact(db: Db, l: nat, channel: Channel, until: Option<int>)
    requires OfferKeysOk(db) && l in db.lines
    ensures ReserveOneSpec(db, l, channel, until).Ok? <==> LineFits(db, l, channel)
  {
    hide ReserveLineSpec, PoolUnits, Pool, MaySell, LinePool;
    if MaySell(db, l, channel) {
      var k := db.lines[l].offer;
      SoldFromItsPool(db, l, channel);
      PoolUnitsAre(db, k);
      PoolIsActive(db, k, EUR);
      PoolFitsProduct(db, k, EUR, db.lines[l].product);
      ReserveLineIsExact(db, l, Pool(db, k, EUR), db.lines[l].quantity, until);
    } else {
      UnsoldIsRefused(db, l, channel, until);
    }
  }

  lemma PoolUnitsAre(db: Db, k: nat)
    requires k < |db.offers| && OfferOk(db, k)
    ensures InRange(db, Pool(db, k, EUR)) && UnitsIn(db, Pool(db, k, EUR)) == PoolUnits(db, k, EUR)
  {
    PoolBelowUnits(db, k, EUR, |db.batches|);
  }

  lemma ReservedWasSold(db: Db, l: nat, channel: Channel, until: Option<int>)
    requires OfferKeysOk(db) && l in db.lines && ReserveOneSpec(db, l, channel, until).Ok?
    ensures MaySell(db, l, channel)
  {
    hide ReserveOneSpec, MaySell;
    if !MaySell(db, l, channel) {
      UnsoldIsRefused(db, l, channel, until);
    }
  }

  /** Reserving one offer leaves every other offer's free units unchanged. */
  lemma OtherPoolsKeepUnits(db: Db, l: nat, channel: Channel, until: Option<int>, db1: Db, k: nat)
    requires OffersOk(db) && OfferKeysOk(db) && AllocationKeysOk(db) && l in db.lines
    requires until.None? || until.value > db.now
    requires ReserveOneSpec(db, l, channel, until) == Ok(db1)
    requires k < |db.offers| && k != db.lines[l].offer && OfferOk(db, k) && OfferOk(db1, k)
    requires db.offers[k].channel == channel && Sellable(db, k, EUR)
    ensures PoolUnits(db1, k, EUR) == PoolUnits(db, k, EUR)
  {
    hide OffersOk, OfferKeysOk, ReserveLineSpec, Sellable, MaySell, LinePool;
    var j := db.lines[l].offer;
    ReservedWasSold(db, l, channel, until);
    SoldFromItsPool(db, l, channel);
    var pool := Pool(db, j, EUR);
    forall b | 0 <= b < |db.batches| && InPool(db, k, EUR, b) ensures ActiveReserved(db, b) == ActiveReserved(db1, b) {
      PoolsAreDisjoint(db, j, k, EUR, b);
      ReservedTotals(db, l, pool, db.lines[l].quantity, until, db1, b, l);
    }
    PoolUnitsFrame(db, db1, k, EUR, |db.batches|);
  }

  ghost predicate DistinctOffers(db: Db, ids: seq<nat>)
    requires AreLines(db, ids)
  {
    forall i, j :: 0 <= i < j < |ids| ==> db.lines[ids[i]].offer != db.lines[ids[j]].offer
  }

  ghost predicate AllFit(db: Db, ids: seq<nat>)
    requires OfferKeysOk(db) && AreLines(db, ids)
  {
    forall i :: 0 <= i < |ids| ==> LineFits(db, ids[i], Business)
  }

  lemma OffersOkFrame(db: Db, db1: Db)
    requires OffersOk(db) && db1 == db.(allocations := db1.allocations, nextAllocation := db1.nextAllocation)
    ensures OffersOk(db1)
  {
    forall k | 0 <= k < |db1.offers| ensures OfferOk(db1, k) {
      assert OfferOk(db, k);
    }
  }

  // ---------- Lines that share an offer ----------

  /** Units taken from the batches of a pool. */
  function TakenFrom(picks: seq<BatchPick>, pool: seq<nat>): nat {
    if pool == [] then 0 else TakenFrom(picks, pool[..|pool| - 1]) + Taken(picks, pool[|pool| - 1])
  }

  lemma {:induction false} TakenFromNothing(pool: seq<nat>)
    ensures TakenFrom([], pool) == 0
  {
    if pool != [] {
      TakenFromNothing(pool[..|pool| - 1]);
    }
  }

  lemma {:induction false} TakenFromCons(picks: seq<BatchPick>, pool: seq<nat>)
    requires picks != [] && DistinctPool(pool)
    ensures TakenFrom(picks, pool)
         == TakenFrom(picks[1..], pool) + (if picks[0].batchPk in pool then picks[0].quantity else 0)
  {
    if pool != [] {
      var n := |pool| - 1;
      TakenFromCons(picks, pool[..n]);
      assert pool == pool[..n] + [pool[n]];
      if picks[0].batchPk == pool[n] {
        assert picks[0].batchPk !in pool[..n];
      }
    }
  }

  /** Picks that only name batches of the pool take their total from it. */
  lemma {:induction false} TakenFromIsTotal(picks: seq<BatchPick>, pool: seq<nat>)
    requires DistinctPool(pool) && forall i :: 0 <= i < |picks| ==> picks[i].batchPk in pool
    ensures TakenFrom(picks, pool) == PickTotal(picks)
  {
    if picks == [] {
      TakenFromNothing(pool);
    } else {
      TakenFromCons(picks, pool);
      TakenFromIsTotal(picks[1..], pool);
    }
  }

  lemma {:induction false} UnitsInDrop(db: Db, db1: Db, pool: seq<nat>, picks: seq<BatchPick>)
    requires InRange(db, pool) && SameStock(db, db1)
    requires forall i :: 0 <= i < |pool| ==> Taken(picks, pool[i]) <= FreeUnits(db, pool[i])
    requires forall i :: 0 <= i < |pool| ==> ActiveReserved(db1, pool[i]) == ActiveReserved(db, pool[i]) + Taken(picks, pool[i])
    ensures UnitsIn(db1, pool) + TakenFrom(picks, pool) == UnitsIn(db, pool)
  {
    if pool != [] {
      UnitsInDrop(db, db1, pool[..|pool| - 1], picks);
    }
  }

  /** Reserving a line takes exactly its quantity out of its own pool. */
  lemma ReservingTakesTheQuantity(db: Db, l: nat, channel: Channel, until: Option<int>, db1: Db)
    requires OfferKeysOk(db) && AllocationKeysOk(db) && l in db.lines
    requires until.None? || until.value > db.now
    requires ReserveOneSpec(db, l, channel, until) == Ok(db1)
    ensures var k := db.lines[l].offer;
            k < |db.offers| && OfferOk(db, k) && OfferOk(db1, k)
            && PoolUnits(db1, k, EUR) + db.lines[l].quantity == PoolUnits(db, k, EUR)
  {
    hide OfferKeysOk, LinePlan, MaySell, AllocationKeysOk, PoolUnits, AddAllocations, LinePool;
    ReservedOne(db, l, channel, until, db1);
    var k := db.lines[l].offer;
    var pool := Pool(db, k, EUR);
    var picks := LinePlan(db, pool, db.lines[l].quantity).value;
    PoolIsActive(db, k, EUR);
    PoolUnitsAre(db, k);
    LinePlanOk(db, pool, db.lines[l].quantity);
    forall i | 0 <= i < |pool| ensures ActiveReserved(db1, pool[i]) == ActiveReserved(db, pool[i]) + Taken(picks, pool[i]) {
      AllocationKeysBelow(db);
      AddedRowsTotals(db, l, pool, until, picks, pool[i], l);
    }
    UnitsInDrop(db, db1, pool, picks);
    TakenFromIsTotal(picks, pool);
    assert OfferOk(db1, k);
    PoolUnitsAre(db1, k);
    SamePools(db, db1, k);
  }

  lemma AllocationKeysBelow(db: Db)
    requires AllocationKeysOk(db)
    ensures forall i :: i in db.allocations ==> i < db.nextAllocation
  {
  }

  lemma ReservedOne(db: Db, l: nat, channel: Channel, until: Option<int>, db1: Db)
    requires OfferKeysOk(db) && l in db.lines && ReserveOneSpec(db, l, channel, until) == Ok(db1)
    ensures var k := db.lines[l].offer;
            && k < |db.offers| && OfferOk(db, k) && InRange(db, Pool(db, k, EUR))
            && LinePlan(db, Pool(db, k, EUR), db.lines[l].quantity).Ok?
            && db1 == WithRows(db, l, until, LinePlan(db, Pool(db, k, EUR), db.lines[l].quantity).value)
  {
    hide LinePlan, WithRows, MaySell, LinePool;
    ReservedWasSold(db, l, channel, until);
    SoldFromItsPool(db, l, channel);
  }

  /** On either channel a line is picked first expired, first out from its own offer's pool. */
  lemma LinesArePickedFefo(db: Db, l: nat, channel: Channel, until: Option<int>, db1: Db, n: nat)
    requires OfferKeysOk(db) && AllocationKeysOk(db) && l in db.lines
    requires ReserveOneSpec(db, l, channel, until) == Ok(db1)
    requires db.lines[l].offer < |db.offers| && OfferOk(db, db.lines[l].offer)
    requires n <= |Pool(db, db.lines[l].offer, EUR)|
    ensures var order := FefoOrder(db, Pool(db, db.lines[l].offer, EUR));
            && InRange(db, order) && DistinctPool(order)
            && (forall b :: b in order <==> b in Pool(db, db.lines[l].offer, EUR))
            && (forall i, j :: 0 <= i < j < |order| ==> Earlier(AvailabilityOf(db, order[i]), AvailabilityOf(db, order[j])))
            && NewlyHeld(db, db1, l, order[..n]) == Min(db.lines[l].quantity, UnitsIn(db, order[..n]))
  {
    hide OfferKeysOk, Pool, MaySell, LinePool, FefoOrder, NewlyHeld, UnitsIn, ReserveLineSpec;
    var pool := Pool(db, db.lines[l].offer, EUR);
    ReservedWasSold(db, l, channel, until);
    SoldFromItsPool(db, l, channel);
    FefoOrderIsFefo(db, pool);
    AllocationKeysBelow(db);
    ReservationIsFefo(db, l, pool, db.lines[l].quantity, until, db1, n);
  }

  lemma SamePools(db: Db, db1: Db, k: nat)
    requires SameStock(db, db1) && k < |db.offers| && OfferOk(db, k) && OfferOk(db1, k)
    ensures Pool(db1, k, EUR) == Pool(db, k, EUR)
  {
    SamePoolsBelow(db, db1, k, |db.batches|);
  }

  lemma {:induction false} SamePoolsBelow(db: Db, db1: Db, k: nat, n: nat)
    requires SameStock(db, db1) && k < |db.offers| && OfferOk(db, k) && OfferOk(db1, k) && n <= |db.batches|
    ensures PoolBelow(db1, k, EUR, n) == PoolBelow(db, k, EUR, n)
  {
    if n > 0 {
      SamePoolsBelow(db, db1, k, n - 1);
      assert InPool(db, k, EUR, n - 1) == InPool(db1, k, EUR, n - 1);
    }
  }

  /** Units that the lines ask of one offer. */
  function Demand(db: Db, ids: seq<nat>, k: nat): nat
    requires AreLines(db, ids)
  {
    if ids == [] then 0
    else Demand(db, ids[1..], k) + (if db.lines[ids[0]].offer == k then db.lines[ids[0]].quantity else 0)
  }

  lemma {:induction false} DemandCovers(db: Db, ids: seq<nat>, k: nat)
    requires AreLines(db, ids)
    ensures (forall i :: 0 <= i < |ids| ==> db.lines[ids[i]].offer != k) ==> Demand(db, ids, k) == 0
    ensures forall i :: 0 <= i < |ids| && db.lines[ids[i]].offer == k ==> db.lines[ids[i]].quantity <= Demand(db, ids, k)
  {
    if ids != [] {
      DemandCovers(db, ids[1..], k);
      assert ids == [ids[0]] + ids[1..];
    }
  }

  lemma {:induction false} DemandFrame(db: Db, db1: Db, ids: seq<nat>, k: nat)
    requires db1.lines == db.lines && AreLines(db, ids)
    ensures Demand(db1, ids, k) == Demand(db, ids, k)
  {
    if ids != [] {
      DemandFrame(db, db1, ids[1..], k);
    }
  }

  /** The line's offer may be sold, and its pool has the units all the lines together ask of it. */
  ghost predicate FitsTogether(db: Db, ids: seq<nat>, l: nat, channel: Channel)
    requires OfferKeysOk(db) && AreLines(db, ids) && l in db.lines
  {
    && MaySell(db, l, channel)
    && (assert OfferOk(db, db.lines[l].offer);
        Demand(db, ids, db.lines[l].offer) <= PoolUnits(db, db.lines[l].offer, EUR))
  }

  ghost predicate AllFitTogether(db: Db, ids: seq<nat>, channel: Channel)
    requires OfferKeysOk(db) && AreLines(db, ids)
  {
    forall i :: 0 <= i < |ids| ==> FitsTogether(db, ids, ids[i], channel)
  }

  /** After the first line is reserved, the others fit exactly when all fitted together before. */
  lemma FitsAfterFirst(db: Db, ids: seq<nat>, db1: Db, m: nat, channel: Channel, until: Option<int>)
    requires until.None? || until.value > db.now
    requires OffersOk(db) && OfferKeysOk(db) && AllocationKeysOk(db) && OfferKeysOk(db1)
    requires AreLines(db, ids) && ids != [] && AreLines(db1, ids[1..])
    requires ReserveOneSpec(db, ids[0], channel, until) == Ok(db1) && m in db.lines
    ensures FitsTogether(db, ids, m, channel) <==> FitsTogether(db1, ids[1..], m, channel)
  {
    hide OffersOk, PoolUnits, AllocationKeysOk, ReserveOneSpec;
    var k := db.lines[m].offer;
    assert OfferOk(db, k) && OfferOk(db1, k);
    assert MaySell(db, m, channel) == MaySell(db1, m, channel) by { SameValidity(db, db1, m, channel); }
    if MaySell(db, m, channel) {
      DemandFrame(db, db1, ids[1..], k);
      if k == db.lines[ids[0]].offer {
        ReservingTakesTheQuantity(db, ids[0], channel, until, db1);
      } else {
        SoldFromItsPool(db, m, channel);
        OtherPoolsKeepUnits(db, ids[0], channel, until, db1, k);
      }
    }
  }

  lemma SameValidity(db: Db, db1: Db, m: nat, channel: Channel)
    requires OfferKeysOk(db) && OfferKeysOk(db1) && m in db.lines
    requires db1.lines == db.lines && SameStock(db, db1)
    ensures MaySell(db, m, channel) == MaySell(db1, m, channel)
  {
  }

  lemma SplitTogether(db: Db, ids: seq<nat>, db1: Db, channel: Channel, until: Option<int>)
    requires until.None? || until.value > db.now
    requires OffersOk(db) && OfferKeysOk(db) && AllocationKeysOk(db) && OfferKeysOk(db1)
    requires AreLines(db, ids) && ids != [] && AreLines(db1, ids[1..])
    requires ReserveOneSpec(db, ids[0], channel, until) == Ok(db1)
    ensures AllFitTogether(db, ids, channel) <==> AllFitTogether(db1, ids[1..], channel)
  {
    hide OffersOk, OfferKeysOk, AllocationKeysOk, ReserveOneSpec, FitsTogether;
    var rest := ids[1..];
    forall i | 0 <= i < |ids| ensures ids[i] in db.lines && (FitsTogether(db, ids, ids[i], channel) <==> FitsTogether(db1, rest, ids[i], channel)) {
      FitsAfterFirst(db, ids, db1, ids[i], channel, until);
    }
    if AllFitTogether(db1, rest, channel) {
      forall i | 0 <= i < |ids| ensures FitsTogether(db, ids, ids[i], channel) {
        if i > 0 {
          assert rest[i - 1] == ids[i];
        } else {
          FirstFits(db, ids, db1, channel, until);
        }
      }
    }
    if AllFitTogether(db, ids, channel) {
      forall i | 0 <= i < |rest| ensures FitsTogether(db1, rest, rest[i], channel) {
        assert rest[i] == ids[i + 1];
      }
    }
  }

  /** The first line fits with the others: either another line on its offer does, or it is alone. */
  lemma FirstFits(db: Db, ids: seq<nat>, db1: Db, channel: Channel, until: Option<int>)
    requires until.None? || until.value > db.now
    requires OffersOk(db) && OfferKeysOk(db) && AllocationKeysOk(db) && OfferKeysOk(db1)
    requires AreLines(db, ids) && ids != [] && AreLines(db1, ids[1..])
    requires ReserveOneSpec(db, ids[0], channel, until) == Ok(db1)
    requires AllFitTogether(db1, ids[1..], channel)
    ensures FitsTogether(db, ids, ids[0], channel)
  {
    hide OffersOk, OfferKeysOk, AllocationKeysOk, ReserveOneSpec, PoolUnits;
    var k, rest := db.lines[ids[0]].offer, ids[1..];
    OneLineIsExact(db, ids[0], channel, until);
    FitsAfterFirst(db, ids, db1, ids[0], channel, until);
    DemandCovers(db, rest, k);
    if i :| 0 <= i < |rest| && db.lines[rest[i]].offer == k {
      assert FitsTogether(db1, rest, rest[i], channel);
      FitsAfterFirst(db, ids, db1, rest[i], channel, until);
    }
  }

  /** Lines are all reserved, in this order or any other, exactly when every offer may be sold and each
      pool has the units that the lines on its offer ask for together. */
  lemma {:induction false} ReservingIsExact(db: Db, ids: seq<nat>, channel: Channel, until: Option<int>)
    requires until.None? || until.value > db.now
    requires OffersOk(db) && OfferKeysOk(db) && AllocationKeysOk(db) && StockOk(db) && AreLines(db, ids)
    ensures ReserveLinesSpec(db, ids, channel, until).Ok? <==> AllFitTogether(db, ids, channel)
    decreases |ids|
  {
    hide OffersOk, OfferKeysOk, AllocationKeysOk, StockOk, ReserveOneSpec, FitsTogether, AllFitTogether, LineFits;
    if ids == [] {
      NothingToFit(db, channel);
    } else {
      OneLineIsExact(db, ids[0], channel, until);
      if ReserveOneSpec(db, ids[0], channel, until).Ok? {
        var db1 := ReserveOneSpec(db, ids[0], channel, until).value;
        OneLineEffect(db, ids[0], channel, until, db1);
        ExtendsKeysOk(db, db1, [ids[0]], until);
        OffersOkFrame(db, db1);
        SplitTogether(db, ids, db1, channel, until);
        ReservingIsExact(db1, ids[1..], channel, until);
      } else {
        FirstFitsAlone(db, ids, channel);
      }
    }
  }

  lemma NothingToFit(db: Db, channel: Channel)
    requires OfferKeysOk(db)
    ensures AllFitTogether(db, [], channel)
  {
  }

  lemma FirstFitsAlone(db: Db, ids: seq<nat>, channel: Channel)
    requires OfferKeysOk(db) && AreLines(db, ids) && ids != []
    ensures AllFitTogether(db, ids, channel) ==> LineFits(db, ids[0], channel)
  {
    hide PoolUnits, MaySell;
    if AllFitTogether(db, ids, channel) {
      assert FitsTogether(db, ids, ids[0], channel);
      DemandCovers(db, ids, db.lines[ids[0]].offer);
    }
  }

  /** Any business draft, whether or not lines share offers, is placed exactly when it has lines, each
      line's offer may be sold, and each pool has the units the order asks of its offer in total. */
  lemma DraftIsPlacedExactly(db: Db, o: nat)
    requires Inv(db) && OfferKeysOk(db) && o in db.orders && db.orders[o].channel.Business? && db.orders[o].status.Draft?
    ensures AreLines(db, OrderLines(db, o))
    ensures PlaceBusinessSpec(db, o).Ok? <==> HasLine(db.lines, o) && AllFitTogether(db, OrderLines(db, o), Business)
  {
    hide AllFitTogether, OrdersOk, PaymentsOk, OneRowPerLineAndBatch, OfferKeysOk, ReserveLinesSpec;
    LineIdsFacts(db, o);
    AllocationKeys(db);
    ReservingIsExact(db, OrderLines(db, o), Business, None);
  }

  // ---------- Lines on distinct offers ----------

  lemma {:induction false} DistinctDemand(db: Db, ids: seq<nat>, i: nat)
    requires AreLines(db, ids) && DistinctOffers(db, ids) && i < |ids|
    ensures Demand(db, ids, db.lines[ids[i]].offer) == db.lines[ids[i]].quantity
  {
    var rest := ids[1..];
    if i == 0 {
      DemandCovers(db, rest, db.lines[ids[0]].offer);
    } else {
      assert rest[i - 1] == ids[i];
      DistinctDemand(db, rest, i - 1);
    }
  }

  /** Lines on pairwise distinct offers never compete: they are all reserved exactly when each fits on
      its own at the start. */
  lemma DistinctOffersNeverCompete(db: Db, ids: seq<nat>)
    requires OffersOk(db) && OfferKeysOk(db) && AllocationKeysOk(db) && StockOk(db)
    requires AreLines(db, ids) && DistinctOffers(db, ids)
    ensures ReserveLinesSpec(db, ids, Business, None).Ok? <==> AllFit(db, ids)
  {
    hide OffersOk, OfferKeysOk, AllocationKeysOk, StockOk, ReserveLinesSpec, MaySell, PoolUnits;
    ReservingIsExact(db, ids, Business, None);
    forall i | 0 <= i < |ids| ensures FitsTogether(db, ids, ids[i], Business) <==> LineFits(db, ids[i], Business) {
      DistinctDemand(db, ids, i);
    }
    assert AllFitTogether(db, ids, Business) <==> AllFit(db, ids);
  }

  /** A business draft whose lines are on distinct offers is placed exactly when it has lines and each
      line's offer may be sold and has the line's units free in its pool. */
  lemma DistinctDraftIsPlacedExactly(db: Db, o: nat)
    requires Inv(db) && OfferKeysOk(db) && o in db.orders && db.orders[o].channel.Business? && db.orders[o].status.Draft?
    requires !TwoLinesShareAnOffer(db.lines, o)
    ensures PlaceBusinessSpec(db, o).Ok? <==>
              HasLine(db.lines, o) && forall l :: l in db.lines && db.lines[l].order == o ==> LineFits(db, l, Business)
  {
    hide LineFits, OrdersOk, PaymentsOk, OneRowPerLineAndBatch, OfferKeysOk, ReserveLinesSpec;
    LineIdsFacts(db, o);
    AllocationKeys(db);
    var ids := OrderLines(db, o);
    DistinctOrderLines(db, o);
    DistinctOffersNeverCompete(db, ids);
    if forall l :: l in db.lines && db.lines[l].order == o ==> LineFits(db, l, Business) {
      assert AllFit(db, ids) by {
        forall i | 0 <= i < |ids| ensures LineFits(db, ids[i], Business) {
          assert ids[i] in ids;
        }
      }
    }
    if AllFit(db, ids) {
      forall l | l in db.lines && db.lines[l].order == o ensures LineFits(db, l, Business) {
        assert l in ids;
      }
    }
  }

  lemma DistinctOrderLines(db: Db, o: nat)
    requires !TwoLinesShareAnOffer(db.lines, o)
    ensures AreLines(db, OrderLines(db, o)) && DistinctOffers(db, OrderLines(db, o))
  {
    var ids := OrderLines(db, o);
    forall i, j | 0 <= i < j < |ids| ensures ids[i] in db.lines && ids[j] in db.lines && db.lines[ids[i]].offer != db.lines[ids[j]].offer {
      assert ids[i] in ids && ids[j] in ids && ids[i] < ids[j];
    }
    forall i | 0 <= i < |ids| ensures ids[i] in db.lines {
      assert ids[i] in ids;
    }
  }
}
