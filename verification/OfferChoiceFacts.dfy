/**
 The availability shown when editing a placed business order, against the stock its pools really have
 once the order's own reservations are deleted.
 */
module OfferChoiceFacts {
  import opened Common
  import opened Records
  import opened Pricing
  import opened Reservations
  import opened ReservationFacts
  import opened Placement
  import opened Orders
  import opened OrderEdit
  import opened Drafts
  import opened Invariant
  import opened PackSteps
  import opened EditFacts
  import opened Catalog
  import opened CatalogFacts
  import opened CatalogGuarantees
  import opened OfferChoices

  // ---------- The figures of the context ----------

  lemma {:induction false} AddOffersFacts(m: map<nat, int>, offers: seq<CatalogOffer>, k: nat)
    ensures k in AddOffers(m, offers) <==> k in m || exists c :: c in offers && c.offer == k
    ensures k in AddOffers(m, offers) ==>
              (k in m && AddOffers(m, offers)[k] == m[k]) || exists c :: c in offers && c.offer == k && c.availableUnits == AddOffers(m, offers)[k]
  {
    if offers != [] {
      var n := |offers| - 1;
      assert offers == offers[..n] + [offers[n]];
      AddOffersFacts(m, offers[..n], k);
      if c :| c in offers[..n] && c.offer == k {
        assert c in offers;
      }
    }
  }

  lemma {:induction false} FiguresAreListed(cat: seq<CatalogProduct>, k: nat)
    ensures k in CatalogFigures(cat) ==> Lists(cat, k, CatalogFigures(cat)[k])
    ensures forall c :: IsListed(cat, c) && c.offer == k ==> k in CatalogFigures(cat)
  {
    if cat != [] {
      hide IsListed, AddOffers;
      var n := |cat| - 1;
      var before := CatalogFigures(cat[..n]);
      assert cat == cat[..n] + [cat[n]];
      FiguresAreListed(cat[..n], k);
      AddOffersFacts(before, cat[n].offers, k);
      forall c: CatalogOffer ensures IsListed(cat, c) <==> IsListed(cat[..n], c) || c in cat[n].offers {
        IsListedSnoc(cat[..n], cat[n], c);
      }
    } else {
      forall c: CatalogOffer ensures !IsListed(cat, c) {
        NothingIsListed(c);
      }
    }
  }

  /** Catalog figures are the free units of the pools of the sellable business offers. */
  lemma CatalogFigureIs(db: Db, k: nat)
    requires Inv(db) && OfferKeysOk(db) && CatalogSpec(db).Ok?
    ensures k in CatalogFigures(CatalogSpec(db).value) <==> Offered(db, k)
    ensures Eligible(db, k) ==> OfferOk(db, k) && GetOrZero(CatalogFigures(CatalogSpec(db).value), k) == PoolUnits(db, k, EUR)
  {
    hide Inv, CatalogSpec, CatalogFigures, IsListed, PoolUnits, OfferKeysOk;
    var cat := CatalogSpec(db).value;
    FiguresAreListed(cat, k);
    if k in CatalogFigures(cat) {
      CatalogIsExact(db, k, CatalogFigures(cat)[k]);
    }
    if Offered(db, k) {
      CatalogIsExact(db, k, PoolUnits(db, k, EUR));
    }
    EligibleOffers(db, k);
  }

  lemma EligibleOffers(db: Db, k: nat)
    requires OfferKeysOk(db)
    ensures Eligible(db, k) ==>
              k < |db.offers| && OfferOk(db, k) && db.offers[k].channel.Business? && Sellable(db, k, EUR)
    ensures Offered(db, k) ==> Eligible(db, k)
    ensures Eligible(db, k) && !Offered(db, k) ==> PoolUnits(db, k, EUR) == 0
  {
    hide PoolUnits;
    if k < |db.offers| {
      assert OfferOk(db, k);
    }
  }

  lemma {:induction false} NoLinesNoUnits(lines: Lines, n: nat, o: nat, k: nat)
    requires k !in OffersOf(lines, o)
    ensures LineUnitsBelow(lines, n, o, k) == 0
  {
    if n > 0 {
      NoLinesNoUnits(lines, n - 1, o, k);
      if n - 1 in lines && lines[n - 1].order == o {
        assert lines[n - 1].offer in OffersOf(lines, o);
      }
    }
  }

  /** An offer is selectable when it may be sold and has free units or lines of the order; its figure
      is its pool's current free units plus the order's own units on it. */
  lemma ContextFigure(db: Db, o: nat, k: nat)
    requires Inv(db) && OfferKeysOk(db) && o in db.orders && !db.orders[o].status.Draft?
    requires ContextSpec(db, Some(o)).Ok?
    ensures var ctx := ContextSpec(db, Some(o)).value;
            && (k in ctx <==> Offered(db, k) || (Eligible(db, k) && k in OffersOf(db.lines, o)))
            && (k in ctx ==> OfferOk(db, k) && ctx[k] == PoolUnits(db, k, EUR) + LineUnits(db, o, k))
  {
    hide Inv, CatalogSpec, CatalogFigures, Offered, Eligible, PoolUnits, OffersOf, OfferKeysOk;
    CatalogFigureIs(db, k);
    EligibleOffers(db, k);
    if k !in OffersOf(db.lines, o) {
      NoLinesNoUnits(db.lines, db.nextLine, o, k);
    }
  }

  // ---------- What deleting the order's reservations frees ----------

  function PoolSet(db: Db, k: nat, n: nat): set<nat>
    requires k < |db.offers| && OfferOk(db, k) && n <= |db.batches|
  {
    set b | 0 <= b < n && InPool(db, k, EUR, b)
  }

  /** Units the order holds on the batches of a pool. */
  function HeldInPool(db: Db, o: nat, k: nat): nat
    requires k < |db.offers| && OfferOk(db, k)
  {
    Total(db.allocations, db.nextAllocation, HeldWithin(o, PoolSet(db, k, |db.batches|)))
  }

  lemma ClearedActive(db: Db, o: nat, b: nat)
    requires Deadline(db.allocations, o, None)
    ensures ActiveReserved(DeleteReservationsSpec(db, o), b) == ActiveReserved(db, b) - Held(db, o, b)
  {
    var cleared := DeleteReservationsSpec(db, o);
    TotalSplits(db.allocations, db.nextAllocation, ActiveOn(b, db.now), cleared.allocations, ActiveOn(b, db.now),
                db.allocations, HeldOn(o, b));
  }

  lemma ClearedFree(db: Db, o: nat, b: nat)
    requires StockOk(db) && Deadline(db.allocations, o, None) && b < |db.batches|
    ensures FreeUnits(DeleteReservationsSpec(db, o), b) == FreeUnits(db, b) + Held(db, o, b)
  {
    ClearedActive(db, o, b);
    HeldIsActive(db, o, b);
    assert BatchOk(db, b);
  }

  lemma HeldWithinSnoc(db: Db, o: nat, s: set<nat>, b: nat)
    requires b !in s
    ensures Total(db.allocations, db.nextAllocation, HeldWithin(o, s + {b}))
         == Total(db.allocations, db.nextAllocation, HeldWithin(o, s)) + Held(db, o, b)
  {
    TotalSplits(db.allocations, db.nextAllocation, HeldWithin(o, s + {b}), db.allocations, HeldWithin(o, s), db.allocations, HeldOn(o, b));
  }

  lemma NothingHeldWithin(db: Db, o: nat)
    ensures Total(db.allocations, db.nextAllocation, HeldWithin(o, {})) == 0
  {
    TotalZero(db.allocations, db.nextAllocation, HeldWithin(o, {}));
  }

  lemma {:induction false} ClearedPoolUnits(db: Db, o: nat, k: nat, n: nat)
    requires StockOk(db) && Deadline(db.allocations, o, None) && k < |db.offers| && OfferOk(db, k) && n <= |db.batches|
    requires OfferOk(DeleteReservationsSpec(db, o), k)
    ensures PoolUnitsBelow(DeleteReservationsSpec(db, o), k, EUR, n)
         == PoolUnitsBelow(db, k, EUR, n) + Total(db.allocations, db.nextAllocation, HeldWithin(o, PoolSet(db, k, n)))
  {
    hide InPool, StockOk, Deadline, FreeUnits, Held, DeleteAllocations, Total;
    if n == 0 {
      NothingHeldWithin(db, o);
      assert PoolSet(db, k, 0) == {};
    } else {
      ClearedPoolUnits(db, o, k, n - 1);
      ClearedFree(db, o, n - 1);
      HeldWithinSnoc(db, o, PoolSet(db, k, n - 1), n - 1);
      SamePool(db, o, k, n - 1);
      assert PoolSet(db, k, n) == if InPool(db, k, EUR, n - 1) then PoolSet(db, k, n - 1) + {n - 1} else PoolSet(db, k, n - 1);
    }
  }

  lemma SamePool(db: Db, o: nat, k: nat, b: nat)
    requires k < |db.offers| && OfferOk(db, k) && b < |db.batches| && OfferOk(DeleteReservationsSpec(db, o), k)
    ensures InPool(DeleteReservationsSpec(db, o), k, EUR, b) == InPool(db, k, EUR, b)
  {
  }

  /** Deleting the order's reservations frees exactly what it holds in the pool. */
  lemma FreeForEditIs(db: Db, o: nat, k: nat)
    requires StockOk(db) && Deadline(db.allocations, o, None) && OfferKeysOk(db) && k < |db.offers| && OfferOk(db, k)
    ensures FreeForEdit(db, o, k) == PoolUnits(db, k, EUR) + HeldInPool(db, o, k)
  {
    assert OfferOk(DeleteReservationsSpec(db, o), k);
    ClearedPoolUnits(db, o, k, |db.batches|);
  }

  // ---------- What the order holds for its lines on an offer ----------

  function LinesOn(lines: Lines, n: nat, o: nat, k: nat): set<nat> {
    set l | l in lines && l < n && lines[l].order == o && lines[l].offer == k
  }

  lemma HeldForSnoc(db: Db, o: nat, s: set<nat>, l: nat)
    requires AllocationsOk(db) && l !in s && l in db.lines && db.lines[l].order == o
    ensures Total(db.allocations, db.nextAllocation, HeldFor(o, s + {l}))
         == Total(db.allocations, db.nextAllocation, HeldFor(o, s)) + Total(db.allocations, db.nextAllocation, ReservedFor(l))
  {
    forall i | 0 <= i < db.nextAllocation
      ensures Weight(db.allocations, i, HeldFor(o, s + {l})) == Weight(db.allocations, i, HeldFor(o, s)) + Weight(db.allocations, i, ReservedFor(l))
    {
      if i in db.allocations {
        assert AllocationOk(db, i);
      }
    }
    TotalSplits(db.allocations, db.nextAllocation, HeldFor(o, s + {l}), db.allocations, HeldFor(o, s), db.allocations, ReservedFor(l));
  }

  lemma {:induction false} LinesHoldTheirUnits(db: Db, o: nat, k: nat, n: nat)
    requires AllocationsOk(db) && Covered(db, o, None)
    ensures Total(db.allocations, db.nextAllocation, HeldFor(o, LinesOn(db.lines, n, o, k))) == LineUnitsBelow(db.lines, n, o, k)
  {
    hide AllocationsOk, Total;
    if n == 0 {
      assert LinesOn(db.lines, 0, o, k) == {};
      NothingHeldFor(db, o);
    } else {
      LinesHoldTheirUnits(db, o, k, n - 1);
      var s := LinesOn(db.lines, n - 1, o, k);
      if n - 1 in db.lines && db.lines[n - 1].order == o && db.lines[n - 1].offer == k {
        assert LinesOn(db.lines, n, o, k) == s + {n - 1};
        HeldForSnoc(db, o, s, n - 1);
        assert LineHeld(db, n - 1);
      } else {
        assert LinesOn(db.lines, n, o, k) == s;
      }
    }
  }

  lemma NothingHeldFor(db: Db, o: nat)
    ensures Total(db.allocations, db.nextAllocation, HeldFor(o, {})) == 0
  {
    TotalZero(db.allocations, db.nextAllocation, HeldFor(o, {}));
  }

  /** Every reservation of the order lies in the pool of its own line's offer. */
  ghost predicate InOwnPools(db: Db, o: nat)
    requires OfferKeysOk(db)
  {
    forall i :: i in db.allocations && Matches(db.allocations[i], ReservedBy(o)) ==> InOwnPool(db, i)
  }

  ghost predicate InOwnPool(db: Db, i: nat)
    requires OfferKeysOk(db) && i in db.allocations
  {
    && db.allocations[i].line in db.lines
    && db.allocations[i].batch < |db.batches|
    && (var k := db.lines[db.allocations[i].line].offer;
        assert OfferOk(db, k);
        InPool(db, k, EUR, db.allocations[i].batch))
  }

  /** The order's lines are on offers that may still be sold. */
  ghost predicate OffersStillEligible(db: Db, o: nat)
    requires OfferKeysOk(db)
  {
    forall l :: l in db.lines && db.lines[l].order == o ==> Eligible(db, db.lines[l].offer)
  }

  lemma OwnPoolWeight(db: Db, o: nat, k: nat, i: nat)
    requires OfferKeysOk(db) && AllocationsOk(db) && LineKeysBelow(db) && InOwnPools(db, o) && k < |db.offers| && OfferOk(db, k)
    ensures Weight(db.allocations, i, HeldFor(o, LinesOn(db.lines, db.nextLine, o, k)))
         <= Weight(db.allocations, i, HeldWithin(o, PoolSet(db, k, |db.batches|)))
  {
    hide InPool;
    if i in db.allocations && Matches(db.allocations[i], ReservedBy(o)) {
      assert AllocationOk(db, i);
      assert InOwnPool(db, i);
    }
  }

  /** No reservation for another offer's line lies in the offer's pool. */
  ghost predicate NoForeignRow(db: Db, o: nat, k: nat)
    requires k < |db.offers| && OfferOk(db, k)
  {
    forall i :: i in db.allocations && Matches(db.allocations[i], HeldWithin(o, PoolSet(db, k, |db.batches|))) ==>
      db.allocations[i].line in db.lines && db.lines[db.allocations[i].line].offer == k
  }

  lemma NativeWeight(db: Db, o: nat, k: nat, i: nat)
    requires OfferKeysOk(db) && AllocationsOk(db) && LineKeysBelow(db) && InOwnPools(db, o) && k < |db.offers| && OfferOk(db, k)
    requires i in db.allocations
    ensures Weight(db.allocations, i, HeldFor(o, LinesOn(db.lines, db.nextLine, o, k)))
              == Weight(db.allocations, i, HeldWithin(o, PoolSet(db, k, |db.batches|)))
       <==> (Matches(db.allocations[i], HeldWithin(o, PoolSet(db, k, |db.batches|))) ==> db.lines[db.allocations[i].line].offer == k)
  {
    hide InPool;
    assert AllocationOk(db, i);
    if Matches(db.allocations[i], ReservedBy(o)) {
      assert InOwnPool(db, i);
    }
  }

  /** Offers that may all still be sold have disjoint pools, so no row is foreign. */
  lemma EligibleHaveNoForeignRow(db: Db, o: nat, k: nat)
    requires OffersOk(db) && OfferKeysOk(db) && AllocationsOk(db)
    requires InOwnPools(db, o) && OffersStillEligible(db, o) && Eligible(db, k) && k < |db.offers| && OfferOk(db, k)
    ensures NoForeignRow(db, o, k)
  {
    hide InPool, OffersOk;
    forall i | i in db.allocations && Matches(db.allocations[i], HeldWithin(o, PoolSet(db, k, |db.batches|)))
      ensures db.allocations[i].line in db.lines && db.lines[db.allocations[i].line].offer == k
    {
      assert AllocationOk(db, i);
      assert Matches(db.allocations[i], ReservedBy(o));
      assert InOwnPool(db, i);
      var j := db.lines[db.allocations[i].line].offer;
      assert Eligible(db, j);
      assert OfferOk(db, j);
      var b := db.allocations[i].batch;
      assert b in Pool(db, j, EUR) && b in Pool(db, k, EUR);
      if j != k {
        PoolsAreDisjoint(db, j, k, EUR, b);
        assert false;
      }
    }
  }

  /** While the order's reservations lie in their own offers' pools, a pool holds at least the order's
      units on its offer, and exactly those when no row in it is for another offer's line. */
  lemma HeldInPoolIs(db: Db, o: nat, k: nat)
    requires OfferKeysOk(db) && AllocationsOk(db) && LineKeysBelow(db) && Covered(db, o, None)
    requires InOwnPools(db, o) && k < |db.offers| && OfferOk(db, k)
    ensures LineUnits(db, o, k) <= HeldInPool(db, o, k)
    ensures LineUnits(db, o, k) == HeldInPool(db, o, k) <==> NoForeignRow(db, o, k)
  {
    hide OfferKeysOk, AllocationsOk, LineKeysBelow, Covered, InOwnPools, OfferOk, PoolSet, LinesOn, Matches, Total;
    var own, within := HeldFor(o, LinesOn(db.lines, db.nextLine, o, k)), HeldWithin(o, PoolSet(db, k, |db.batches|));
    LinesHoldTheirUnits(db, o, k, db.nextLine);
    AllocationKeys(db);
    forall i | 0 <= i < db.nextAllocation ensures Weight(db.allocations, i, own) <= Weight(db.allocations, i, within) {
      OwnPoolWeight(db, o, k, i);
    }
    TotalLe(db.allocations, db.nextAllocation, own, db.allocations, within);
    if NoForeignRow(db, o, k) {
      forall i | 0 <= i < db.nextAllocation ensures Weight(db.allocations, i, own) == Weight(db.allocations, i, within) {
        if i in db.allocations {
          NativeWeight(db, o, k, i);
        }
      }
      TotalSame(db.allocations, db.nextAllocation, own, db.allocations, within);
    } else {
      var i := ForeignRow(db, o, k);
      NativeWeight(db, o, k, i);
      TotalLess(db.allocations, db.nextAllocation, own, db.allocations, within, i);
    }
  }

  lemma ForeignRow(db: Db, o: nat, k: nat) returns (i: nat)
    requires AllocationsOk(db) && k < |db.offers| && OfferOk(db, k) && !NoForeignRow(db, o, k)
    ensures i in db.allocations && i < db.nextAllocation && db.allocations[i].line in db.lines
    ensures Matches(db.allocations[i], HeldWithin(o, PoolSet(db, k, |db.batches|))) && db.lines[db.allocations[i].line].offer != k
  {
    i :| i in db.allocations && Matches(db.allocations[i], HeldWithin(o, PoolSet(db, k, |db.batches|)))
         && !(db.allocations[i].line in db.lines && db.lines[db.allocations[i].line].offer == k);
    assert AllocationOk(db, i);
  }

  // ---------- The add-back ----------

  lemma PlacedIsCovered(db: Db, o: nat)
    requires Inv(db) && o in db.orders && db.orders[o].status.Placed?
    ensures Covered(db, o, None) && Deadline(db.allocations, o, None)
  {
    assert OrderOk(db, o);
  }

  /** The figure shown when editing a placed order, and the pool's free units once its reservations are
      deleted, differ exactly by what the order's lines on the offer and its holdings in the pool differ. */
  lemma AddBackIdentity(db: Db, o: nat, k: nat)
    requires Inv(db) && OfferKeysOk(db) && o in db.orders && db.orders[o].status.Placed?
    requires ContextSpec(db, Some(o)).Ok? && k in ContextSpec(db, Some(o)).value
    ensures k < |db.offers| && OfferOk(db, k)
    ensures ContextSpec(db, Some(o)).value[k] + HeldInPool(db, o, k) == FreeForEdit(db, o, k) + LineUnits(db, o, k)
    ensures ContextSpec(db, Some(o)).value[k] == FreeForEdit(db, o, k) <==> HeldInPool(db, o, k) == LineUnits(db, o, k)
  {
    hide ContextSpec, PoolUnits, HeldInPool, LineUnits, FreeForEdit, OfferKeysOk, Tables, OrdersOk, PaymentsOk, OneRowPerLineAndBatch, StockOk;
    ContextFigure(db, o, k);
    EligibleOffers(db, k);
    PlacedIsCovered(db, o);
    FreeForEditIs(db, o, k);
  }

  /** While every reservation lies in the pool of its own line's offer, the figure for an offer is exact
      exactly when no reservation for another offer's line lies in the offer's pool. */
  lemma AddBackIsExactWhen(db: Db, o: nat, k: nat)
    requires Inv(db) && OfferKeysOk(db) && o in db.orders && db.orders[o].status.Placed?
    requires ContextSpec(db, Some(o)).Ok? && k in ContextSpec(db, Some(o)).value
    requires InOwnPools(db, o)
    ensures k < |db.offers| && OfferOk(db, k)
    ensures ContextSpec(db, Some(o)).value[k] == FreeForEdit(db, o, k) <==> NoForeignRow(db, o, k)
  {
    hide ContextSpec, PoolUnits, HeldInPool, LineUnits, FreeForEdit, OfferKeysOk, OrdersOk, PaymentsOk, OneRowPerLineAndBatch,
         StockOk, InOwnPools, NoForeignRow, Covered, OffersOk, LinesOk, AllocationsOk, KeysOk;
    AddBackIdentity(db, o, k);
    PlacedIsCovered(db, o);
    assert LineKeysBelow(db) by { TablesGiveKeys(db); }
    HeldInPoolIs(db, o, k);
  }

  /** The add-back is exact while every reservation lies in the pool of its own line's offer and those
      offers may still be sold. An offer that is not selectable then has nothing to offer. */
  lemma AddBackIsExact(db: Db, o: nat, k: nat)
    requires Inv(db) && OfferKeysOk(db) && o in db.orders && db.orders[o].status.Placed?
    requires ContextSpec(db, Some(o)).Ok? && Eligible(db, k)
    requires InOwnPools(db, o) && OffersStillEligible(db, o)
    ensures k < |db.offers|
    ensures GetOrZero(ContextSpec(db, Some(o)).value, k) == FreeForEdit(db, o, k)
  {
    hide ContextSpec, PoolUnits, HeldInPool, LineUnits, FreeForEdit, OfferKeysOk, OrdersOk, PaymentsOk, OneRowPerLineAndBatch,
         StockOk, InOwnPools, NoForeignRow, OffersStillEligible, Covered, OffersOf, OffersOk, LinesOk, AllocationsOk, KeysOk, Eligible;
    EligibleOffers(db, k);
    ContextFigure(db, o, k);
    PlacedIsCovered(db, o);
    FreeForEditIs(db, o, k);
    assert LineKeysBelow(db) by { TablesGiveKeys(db); }
    EligibleHaveNoForeignRow(db, o, k);
    HeldInPoolIs(db, o, k);
    if k !in ContextSpec(db, Some(o)).value {
      NoLinesNoUnits(db.lines, db.nextLine, o, k);
      NoUnits(db, o, k);
    }
  }

  lemma NoUnits(db: Db, o: nat, k: nat)
    requires LineUnitsBelow(db.lines, db.nextLine, o, k) == 0
    ensures LineUnits(db, o, k) == 0
  {
  }

  /** The figures never promise too much while every reservation lies in the pool of its own line's offer. */
  lemma AddBackIsSafe(db: Db, o: nat, k: nat)
    requires Inv(db) && OfferKeysOk(db) && o in db.orders && db.orders[o].status.Placed?
    requires ContextSpec(db, Some(o)).Ok? && k in ContextSpec(db, Some(o)).value
    requires InOwnPools(db, o)
    ensures Eligible(db, k) && k < |db.offers|
    ensures ContextSpec(db, Some(o)).value[k] <= FreeForEdit(db, o, k)
  {
    hide ContextSpec, PoolUnits, HeldInPool, LineUnits, FreeForEdit, OfferKeysOk, OrdersOk, PaymentsOk, OneRowPerLineAndBatch,
         StockOk, InOwnPools, NoForeignRow, Covered, OffersOf, OffersOk, LinesOk, AllocationsOk, KeysOk, Eligible, OffersStillEligible;
    ContextFigure(db, o, k);
    EligibleOffers(db, k);
    PlacedIsCovered(db, o);
    FreeForEditIs(db, o, k);
    assert LineKeysBelow(db) by { TablesGiveKeys(db); }
    HeldInPoolIs(db, o, k);
  }

  // ---------- Edits within the figures ----------

  /** The incoming line is selectable, and within the figure shown for its offer. */
  ghost predicate WithinFigure(ctx: map<nat, int>, line: ResolvedLine) {
    line.offer.Some? && line.offer.value in ctx && line.quantity <= ctx[line.offer.value]
  }

  lemma EligibleIsResolvable(db: Db, k: nat)
    requires OfferKeysOk(db)
    ensures Eligible(db, k) <==> OfferResolvable(db, k)
  {
  }

  /** An edit within the shown figures cannot fail for stock. */
  lemma EditWithinFiguresSucceeds(db: Db, o: nat, incoming: seq<ResolvedLine>)
    requires Inv(db) && OfferKeysOk(db) && LineKeysBelow(db) && EditAccepted(db, o, incoming)
    requires ContextSpec(db, Some(o)).Ok? && InOwnPools(db, o)
    requires forall i: nat :: i < |incoming| ==> WithinFigure(ContextSpec(db, Some(o)).value, incoming[i])
    ensures UpdatePlacedSpec(db, o, incoming).Ok?
  {
    hide Inv, OfferKeysOk, LineKeysBelow, ContextSpec, InOwnPools, UpdatePlacedSpec, Eligible, FreeForEdit, OfferResolvable,
         RepeatsAnOffer, TwoLinesShareAnOffer, EditStorable, AllValid;
    EditGoesThroughExactly(db, o, incoming);
    forall i: nat | i < |incoming| ensures IncomingFits(db, o, incoming[i]) {
      assert WithinFigure(ContextSpec(db, Some(o)).value, incoming[i]);
      AddBackIsSafe(db, o, incoming[i].offer.value);
      EligibleIsResolvable(db, incoming[i].offer.value);
    }
  }

  /** While the order's offers may all still be sold, a well-formed edit goes through exactly when every
      line is within the figure shown for its offer. */
  lemma EditWithinFiguresExactly(db: Db, o: nat, incoming: seq<ResolvedLine>)
    requires Inv(db) && OfferKeysOk(db) && LineKeysBelow(db) && EditAccepted(db, o, incoming)
    requires ContextSpec(db, Some(o)).Ok? && InOwnPools(db, o) && OffersStillEligible(db, o)
    ensures UpdatePlacedSpec(db, o, incoming).Ok? <==>
              forall i: nat :: i < |incoming| ==> WithinFigure(ContextSpec(db, Some(o)).value, incoming[i])
  {
    hide Inv, OfferKeysOk, LineKeysBelow, ContextSpec, InOwnPools, OffersStillEligible, UpdatePlacedSpec, Eligible, FreeForEdit,
         OfferResolvable, RepeatsAnOffer, TwoLinesShareAnOffer, EditStorable, AllValid;
    EditGoesThroughExactly(db, o, incoming);
    forall i: nat | i < |incoming|
      ensures IncomingFits(db, o, incoming[i]) <==> WithinFigure(ContextSpec(db, Some(o)).value, incoming[i])
    {
      AcceptedLine(db, o, incoming, i);
      var k := incoming[i].offer.value;
      EligibleIsResolvable(db, k);
      if k in ContextSpec(db, Some(o)).value {
        AddBackIsSafe(db, o, k);
      }
      if Eligible(db, k) {
        AddBackIsExact(db, o, k);
      }
    }
  }

  lemma AcceptedLine(db: Db, o: nat, incoming: seq<ResolvedLine>, i: nat)
    requires EditAccepted(db, o, incoming) && i < |incoming|
    ensures incoming[i].offer.Some? && incoming[i].quantity > 0
  {
  }
}
