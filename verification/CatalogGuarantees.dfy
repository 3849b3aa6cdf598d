/**
 What a customer of the business catalog can rely on: it lists exactly the sellable offers with free
 units, with exactly the free units of their pools, and what it lists can be placed.
 */
module CatalogGuarantees {
  import opened Common
  import opened Records
  import opened Pricing
  import opened ReservationFacts
  import opened Placement
  import opened Orders
  import opened OrderEdit
  import opened Invariant
  import opened PlacementFacts
  import opened Catalog
  import opened CatalogFacts

  /** A business offer that may be sold and has free units in its pool. */
  ghost predicate Offered(db: Db, k: nat) {
    && k < |db.offers| && OfferOk(db, k)
    && db.offers[k].channel.Business? && Sellable(db, k, EUR) && PoolUnits(db, k, EUR) > 0
  }

  ghost predicate Lists(cat: seq<CatalogProduct>, k: nat, units: int) {
    exists c: CatalogOffer :: IsListed(cat, c) && c.offer == k && c.availableUnits == units
  }

  // ---------- Standard offers ----------

  lemma {:induction false} StandardOffersHaveAll(db: Db, prices: seq<nat>, k: nat)
    requires AreOffers(db, prices) && k in prices && k < |db.offers| && db.offers[k].batch.None?
    ensures db.offers[k].product in StandardOffers(db, prices)
  {
    var n := |prices| - 1;
    assert prices == prices[..n] + [prices[n]];
    if prices[n] != k {
      StandardOffersHaveAll(db, prices[..n], k);
    }
  }

  lemma StandardOfferIsUnique(db: Db, j: nat, k: nat)
    requires OffersOk(db) && j < |db.offers| && k < |db.offers|
    requires db.offers[j].channel == db.offers[k].channel && db.offers[j].product == db.offers[k].product
    requires db.offers[j].batch.None? && db.offers[k].batch.None?
    ensures j == k
  {
    assert SameScope(db.offers[j], db.offers[k]) && SameScope(db.offers[k], db.offers[j]);
  }

  function CatalogPrices(db: Db): (ks: seq<nat>)
    ensures AreOffers(db, ks)
  {
    BusinessPrices(db, Candidates(QuantityByProduct(db)), |db.offers|)
  }

  function CatalogStandards(db: Db): (m: map<nat, nat>)
    ensures forall p :: p in m ==> m[p] < |db.offers| && db.offers[m[p]].batch.None? && db.offers[m[p]].product == p
    ensures forall p :: p in m ==> m[p] in CatalogPrices(db)
  {
    StandardOffers(db, CatalogPrices(db))
  }

  function CatalogListed(db: Db): seq<nat> {
    ListedProducts(db, Candidates(QuantityByProduct(db)), |db.products|)
  }

  lemma CatalogUnfolds(db: Db)
    ensures CatalogSpec(db).Ok? <==> !MissesStandardOffer(CatalogListed(db), CatalogStandards(db))
    ensures CatalogSpec(db).Err? ==> CatalogSpec(db).error == CatalogInvariantViolated
    ensures CatalogSpec(db).Ok? ==>
              CatalogSpec(db).value
              == Entries(db, QuantityByProduct(db), CatalogStandards(db), CatalogBatchOffers(db), CatalogListed(db))
  {
    hide QuantityByProduct, Entries, StandardOffers, BatchCandidates;
  }

  // ---------- Listed offers ----------

  lemma PoolWithinProduct(db: Db, k: nat)
    requires OffersOk(db) && StockOk(db) && k < |db.offers| && OfferOk(db, k) && Sellable(db, k, EUR)
    ensures PoolUnits(db, k, EUR) <= GetOrZero(QuantityByProduct(db), db.offers[k].product)
  {
    hide QuantityByProduct, OffersOk, StockOk, SumFree, FreeUnits, Orderable;
    var p := db.offers[k].product;
    var all := OrderableOf(db, p);
    var pool := set b | b in all && b < |db.batches| && InPool(db, k, EUR, b);
    ProductTotalIsFree(db, p);
    SumFreeSplit(db, all, pool, |db.batches|);
    PoolIsSum(db, k, pool, |db.batches|);
  }

  lemma ProductOffersAreExact(db: Db, std: nat, p: nat, c: CatalogOffer)
    requires OffersOk(db) && StockOk(db) && std < |db.offers| && p in CatalogListed(db)
    requires db.offers[std].channel.Business? && db.offers[std].batch.None? && db.offers[std].product == p
    requires c in OffersOfProduct(db, std, p)
    ensures Offered(db, c.offer) && c.availableUnits == PoolUnits(db, c.offer, EUR)
  {
    hide QuantityByProduct, CatalogBatchOffers, BatchOffersOf, BatchUnitsOf, OffersOk, StockOk, PoolUnits, OrderableUnits;
    assert p in Candidates(QuantityByProduct(db)) && db.products[p].active;
    var ks := CatalogBatchOffers(db);
    if c in BatchOffersOf(db, ks, p) {
      BatchOffersMember(db, ks, p, c);
      var i :| 0 <= i < |ks| && db.offers[ks[i]].product == p && UnitsOfBatchOffer(db, ks[i]) > 0 && c == BatchOffer(db, ks[i]);
      assert ks[i] in ks;
      CatalogBatchOffersAre(db, ks[i]);
      OffersOkAt(db, ks[i]);
      BatchFigureIsPoolUnits(db, ks[i]);
    } else {
      OffersOkAt(db, std);
      assert c == StandardOffer(db, std, c.availableUnits);
      StandardFigureIsPoolUnits(db, std);
    }
  }

  lemma OffersOkAt(db: Db, k: nat)
    requires OffersOk(db) && k < |db.offers|
    ensures OfferOk(db, k)
  {
  }

  lemma OfferedIsThere(db: Db, std: nat, k: nat) returns (c: CatalogOffer)
    requires OffersOk(db) && StockOk(db) && std < |db.offers| && Offered(db, k)
    requires db.offers[std].channel.Business? && db.offers[std].batch.None? && db.offers[std].product == db.offers[k].product
    requires db.offers[k].product in Candidates(QuantityByProduct(db))
    ensures c in OffersOfProduct(db, std, db.offers[k].product)
    ensures c.offer == k && c.availableUnits == PoolUnits(db, k, EUR)
  {
    hide QuantityByProduct, CatalogBatchOffers, BatchOffersOf, BatchUnitsOf, OffersOk, StockOk, PoolUnits, OrderableUnits;
    var p := db.offers[k].product;
    var ks := CatalogBatchOffers(db);
    if db.offers[k].batch.Some? {
      CatalogBatchOffersAre(db, k);
      BatchFigureIsPoolUnits(db, k);
      c := BatchOffer(db, k);
      var i :| 0 <= i < |ks| && ks[i] == k;
      BatchOffersMember(db, ks, p, c);
    } else {
      StandardOfferIsUnique(db, std, k);
      StandardFigureIsPoolUnits(db, k);
      c := StandardOffer(db, std, PoolUnits(db, k, EUR));
    }
  }

  lemma CandidateWhenOffered(db: Db, k: nat)
    requires OffersOk(db) && StockOk(db) && Offered(db, k)
    ensures db.offers[k].product in Candidates(QuantityByProduct(db))
    ensures db.offers[k].product in CatalogListed(db)
  {
    hide QuantityByProduct, OffersOk, StockOk, PoolUnits;
    PoolWithinProduct(db, k);
  }

  /** The catalog lists an offer with a figure exactly when the offer may be sold, has free units, and
      the figure is the free units of its own pool. */
  lemma CatalogIsExact(db: Db, k: nat, units: int)
    requires Inv(db) && CatalogSpec(db).Ok?
    ensures Lists(CatalogSpec(db).value, k, units) <==> Offered(db, k) && units == PoolUnits(db, k, EUR)
  {
    hide CatalogSpec, QuantityByProduct, CatalogBatchOffers, CatalogStandards, CatalogListed, Entries, IsListed, Offered,
         OffersOfProduct, OffersOk, LinesOk, AllocationsOk, KeysOk, StockOk, OrdersOk, PaymentsOk, OneRowPerLineAndBatch, PoolUnits;
    CatalogUnfolds(db);
    var cat, ps, standards := CatalogSpec(db).value, CatalogListed(db), CatalogStandards(db);
    if c: CatalogOffer :| IsListed(cat, c) && c.offer == k && c.availableUnits == units {
      EntriesList(db, standards, ps, c);
      var i :| 0 <= i < |ps| && c in OffersOfProduct(db, standards[ps[i]], ps[i]);
      StandardsAreBusiness(db, ps[i]);
      assert ps[i] in ps;
      ProductOffersAreExact(db, standards[ps[i]], ps[i], c);
    }
    if Offered(db, k) {
      CandidateWhenOffered(db, k);
      OfferedInRange(db, k);
      var p := db.offers[k].product;
      var i :| 0 <= i < |ps| && ps[i] == p;
      StandardsAreBusiness(db, p);
      var c := OfferedIsThere(db, standards[p], k);
      EntriesList(db, standards, ps, c);
    }
  }

  lemma OfferedInRange(db: Db, k: nat)
    requires Offered(db, k)
    ensures k < |db.offers| && OfferOk(db, k) && db.offers[k].channel.Business? && Sellable(db, k, EUR)
  {
  }

  lemma StandardsAreBusiness(db: Db, p: nat)
    requires p in CatalogStandards(db)
    ensures db.offers[CatalogStandards(db)[p]].channel.Business?
  {
    hide QuantityByProduct, StandardOffers;
  }

  /** A product the catalog has to list: active, with free orderable units. */
  ghost predicate MustBeListed(db: Db, p: nat) {
    p < |db.products| && db.products[p].active && SumFree(db, OrderableOf(db, p), |db.batches|) > 0
  }

  ghost predicate IsStandardOf(db: Db, k: nat, p: nat) {
    k < |db.offers| && db.offers[k].channel.Business? && db.offers[k].batch.None? && db.offers[k].product == p
  }

  /** The catalog refuses exactly when an active product with free units has no standard BUSINESS offer. */
  lemma CatalogFailsExactly(db: Db)
    requires Inv(db)
    ensures CatalogSpec(db).Err? <==> exists p: nat :: MustBeListed(db, p) && forall k: nat :: !IsStandardOf(db, k, p)
    ensures CatalogSpec(db).Err? ==> CatalogSpec(db).error == CatalogInvariantViolated
  {
    hide CatalogSpec, QuantityByProduct, StandardOffers, SumFree, OrderableOf, OffersOk, LinesOk, AllocationsOk, KeysOk,
         StockOk, OrdersOk, PaymentsOk, OneRowPerLineAndBatch;
    CatalogUnfolds(db);
    var ps, standards := CatalogListed(db), CatalogStandards(db);
    if i :| 0 <= i < |ps| && ps[i] !in standards {
      assert ps[i] in ps;
      ProductTotalIsFree(db, ps[i]);
      assert MustBeListed(db, ps[i]);
      forall k: nat ensures !IsStandardOf(db, k, ps[i]) {
        if IsStandardOf(db, k, ps[i]) {
          StandardOffersHaveAll(db, CatalogPrices(db), k);
        }
      }
    }
    if p: nat :| MustBeListed(db, p) && forall k: nat :: !IsStandardOf(db, k, p) {
      ProductTotalIsFree(db, p);
      assert p in ps;
      var i :| 0 <= i < |ps| && ps[i] == p;
      if p in standards {
        StandardsAreBusiness(db, p);
        assert IsStandardOf(db, standards[p], p);
      }
    }
  }

  // ---------- From the catalog to placement ----------

  /** The catalog lists the line's offer with at least the line's units. */
  ghost predicate WithinCatalog(db: Db, l: nat)
    requires CatalogSpec(db).Ok? && l in db.lines
  {
    exists units: int :: Lists(CatalogSpec(db).value, db.lines[l].offer, units) && db.lines[l].quantity <= units
  }

  lemma WithinCatalogFits(db: Db, l: nat)
    requires Inv(db) && OfferKeysOk(db) && CatalogSpec(db).Ok? && l in db.lines
    requires db.orders[db.lines[l].order].channel.Business?
    ensures WithinCatalog(db, l) <==> LineFits(db, l, Business)
  {
    hide CatalogSpec, Lists, PoolUnits, OffersOk, AllocationsOk, KeysOk, StockOk, OrdersOk, PaymentsOk, OneRowPerLineAndBatch;
    var k := db.lines[l].offer;
    assert LineOk(db, l);
    assert OfferOk(db, k);
    if units: int :| Lists(CatalogSpec(db).value, k, units) && db.lines[l].quantity <= units {
      CatalogIsExact(db, k, units);
    }
    if LineFits(db, l, Business) {
      CatalogIsExact(db, k, PoolUnits(db, k, EUR));
      assert Lists(CatalogSpec(db).value, k, PoolUnits(db, k, EUR));
    }
  }

  /** A business draft with lines on pairwise distinct offers is placed exactly when every line is
      within the catalog's current figure for its offer. */
  lemma CatalogQuantitiesCanBePlaced(db: Db, o: nat)
    requires Inv(db) && OfferKeysOk(db) && CatalogSpec(db).Ok?
    requires o in db.orders && db.orders[o].channel.Business? && db.orders[o].status.Draft?
    requires HasLine(db.lines, o) && !TwoLinesShareAnOffer(db.lines, o)
    ensures PlaceBusinessSpec(db, o).Ok? <==>
              forall l :: l in db.lines && db.lines[l].order == o ==> WithinCatalog(db, l)
  {
    hide Inv, OfferKeysOk, CatalogSpec, PlaceBusinessSpec, LineFits, WithinCatalog, TwoLinesShareAnOffer;
    DistinctDraftIsPlacedExactly(db, o);
    forall l | l in db.lines && db.lines[l].order == o ensures WithinCatalog(db, l) <==> LineFits(db, l, Business) {
      WithinCatalogFits(db, l);
    }
  }
}
