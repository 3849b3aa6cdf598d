/** What the catalog and the order form show, told in the columns of the tables. */
module CatalogLaws {
  import opened Common
  import opened Records
  import opened Pricing
  import opened ReservationFacts
  import opened Placement
  import opened Orders
  import opened Invariant
  import opened PlacementLaws
  import opened SupplyLaws
  import opened Catalog
  import opened CatalogFacts
  import opened CatalogGuarantees
  import opened OfferChoices
  import opened OfferChoiceFacts

  // ---------- Aggregate figures ----------

  /** The batch is active, has units and expires after today. */
  ghost predicate IsStock(db: Db, b: nat) {
    b < |db.batches| && db.batches[b].status == Active && db.batches[b].quantity > 0 && db.today < db.batches[b].bestBefore
  }

  /** Units of a product on the shelf that no row holds. */
  ghost function UnitsOf(db: Db, p: nat): int {
    Sum(|db.batches|, (b: nat) => if IsStock(db, b) && db.batches[b].product == p
                                  then db.batches[b].quantity - UnitsHeld(db, b) else 0)
  }

  lemma {:induction false} SumFreeIs(db: Db, p: nat, n: nat, f: nat -> int)
    requires StockOk(db) && n <= |db.batches|
    requires forall b: nat :: b < n ==>
               f(b) == if IsStock(db, b) && db.batches[b].product == p then db.batches[b].quantity - UnitsHeld(db, b) else 0
    ensures SumFree(db, OrderableOf(db, p), n) == Sum(n, f)
  {
    hide UnitsHeld, ActiveReserved;
    if n > 0 {
      SumFreeIs(db, p, n - 1, f);
      ReservedIsSum(db, n - 1);
      assert BatchOk(db, n - 1);
    }
  }

  lemma {:induction false} OrderableRowsHave(db: Db, n: nat, p: nat)
    requires n <= |db.batches|
    ensures p in ProductsOf(OrderableRows(db, n)) <==> exists b: nat :: b < n && IsStock(db, b) && db.batches[b].product == p
  {
    if n > 0 {
      OrderableRowsHave(db, n - 1, p);
      var rows := OrderableRows(db, n - 1);
      var more := OrderableRows(db, n);
      if p in ProductsOf(rows) {
        var i :| 0 <= i < |rows| && rows[i].1 == p;
        assert more[i].1 == p;
      }
      if IsStock(db, n - 1) && db.batches[n - 1].product == p {
        assert more[|rows|].1 == p;
      }
      if p in ProductsOf(more) {
        var i :| 0 <= i < |more| && more[i].1 == p;
        if i < |rows| {
          assert rows[i].1 == p;
        } else {
          assert IsStock(db, n - 1);
        }
      }
    }
  }

  /** The dictionary of orderable quantities has a key for each product with stock, and its figure is
      the stock that no row holds; a batch alone counts the same way. */
  lemma FiguresAre(db: Db, p: nat, b: nat)
    requires StockOk(db)
    ensures p in QuantityByProduct(db) <==> exists c: nat :: IsStock(db, c) && db.batches[c].product == p
    ensures GetOrZero(QuantityByProduct(db), p) == UnitsOf(db, p)
    ensures OrderableUnits(db, b) == if IsStock(db, b) then db.batches[b].quantity - UnitsHeld(db, b) else 0
  {
    hide UnitsHeld, ActiveReserved, SumFree, OrderableOf, PhysicalOver, ReservedOver;
    OrderableRowsHave(db, |db.batches|, p);
    ProductTotalIsFree(db, p);
    SumFreeIs(db, p, |db.batches|, (c: nat) => if IsStock(db, c) && db.batches[c].product == p
                                               then db.batches[c].quantity - UnitsHeld(db, c) else 0);
    ReservedIsSum(db, b);
    assert b < |db.batches| ==> BatchOk(db, b);
  }

  // ---------- The listed offers ----------

  /** The catalog's entry for an offer: its kind, batch, EUR price and free units. */
  ghost predicate Describes(db: Db, c: CatalogOffer) {
    && c.offer < |db.offers|
    && c.batch == db.offers[c.offer].batch
    && c.kind == (if db.offers[c.offer].batch == None then Standard else Batch)
    && (if EUR in db.offers[c.offer].amounts then c.price == Some(db.offers[c.offer].amounts[EUR]) else c.price == None)
    && c.availableUnits == UnitsFree(db, c.offer)
  }

  lemma OfferedIs(db: Db, k: nat)
    requires Inv(db)
    ensures Offered(db, k) <==> k < |db.offers| && OnSale(db, Business, k, db.offers[k].product) && UnitsFree(db, k) > 0
    ensures Offered(db, k) ==> PoolUnits(db, k, EUR) == UnitsFree(db, k)
  {
    hide PoolUnits, UnitsFree, StockOk, OrdersOk, PaymentsOk, OneRowPerLineAndBatch, LinesOk, AllocationsOk, KeysOk;
    if k < |db.offers| {
      OffersOkAt(db, k);
      PoolUnitsIsSum(db, k);
    }
  }

  lemma ListedIsDescribed(db: Db, std: nat, p: nat, c: CatalogOffer)
    requires Inv(db) && std < |db.offers| && p in CatalogListed(db)
    requires db.offers[std].channel.Business? && db.offers[std].batch.None? && db.offers[std].product == p
    requires c in OffersOfProduct(db, std, p)
    ensures Describes(db, c) && OnSale(db, Business, c.offer, p) && c.availableUnits > 0
  {
    hide QuantityByProduct, CatalogBatchOffers, BatchOffersOf, BatchUnitsOf, OffersOk, StockOk, PoolUnits, OrderableUnits, UnitsFree,
         OrdersOk, PaymentsOk, OneRowPerLineAndBatch, LinesOk, AllocationsOk, KeysOk, CatalogListed, Offered;
    ProductOffersAreExact(db, std, p, c);
    OfferedIs(db, c.offer);
    if c in BatchOffersOf(db, CatalogBatchOffers(db), p) {
      var ks := CatalogBatchOffers(db);
      BatchOffersMember(db, ks, p, c);
    }
  }

  /** The catalog lists exactly the offers on sale with free units, each with its kind, batch, EUR price
      and free units. */
  lemma ListedOffersAre(db: Db, c: CatalogOffer)
    requires Inv(db) && CatalogSpec(db).Ok?
    ensures IsListed(CatalogSpec(db).value, c) <==>
              Describes(db, c) && OnSale(db, Business, c.offer, db.offers[c.offer].product) && c.availableUnits > 0
  {
    hide CatalogSpec, QuantityByProduct, CatalogBatchOffers, CatalogStandards, CatalogListed, Entries, IsListed, Offered, Inv,
         OffersOfProduct, PoolUnits, UnitsFree, OnSale;
    CatalogUnfolds(db);
    var cat, ps, standards := CatalogSpec(db).value, CatalogListed(db), CatalogStandards(db);
    if IsListed(cat, c) {
      EntriesList(db, standards, ps, c);
      var i :| 0 <= i < |ps| && c in OffersOfProduct(db, standards[ps[i]], ps[i]);
      StandardsAreBusiness(db, ps[i]);
      assert ps[i] in ps;
      ListedIsDescribed(db, standards[ps[i]], ps[i], c);
      OnSaleProduct(db, c.offer, ps[i]);
    }
    if Describes(db, c) && OnSale(db, Business, c.offer, db.offers[c.offer].product) && c.availableUnits > 0 {
      OfferedIs(db, c.offer);
      CatalogIsExact(db, c.offer, c.availableUnits);
      var d: CatalogOffer :| IsListed(cat, d) && d.offer == c.offer && d.availableUnits == c.availableUnits;
      EntriesList(db, standards, ps, d);
      var i :| 0 <= i < |ps| && d in OffersOfProduct(db, standards[ps[i]], ps[i]);
      StandardsAreBusiness(db, ps[i]);
      assert ps[i] in ps;
      ListedIsDescribed(db, standards[ps[i]], ps[i], d);
      assert d == c;
    }
  }

  lemma OnSaleProduct(db: Db, k: nat, p: nat)
    requires OnSale(db, Business, k, p)
    ensures k < |db.offers| && db.offers[k].product == p
  {
  }

  // ---------- The entries ----------

  ghost predicate NoOfferTwice(offers: seq<CatalogOffer>) {
    forall i, j :: 0 <= i < j < |offers| ==> offers[i].offer != offers[j].offer
  }

  /** The product-wide offer comes first, and the batch offers follow in key order. */
  ghost predicate StandardFirst(offers: seq<CatalogOffer>) {
    forall i, j :: 0 <= i < j < |offers| ==> offers[j].kind == Batch && (offers[i].kind == Standard || offers[i].offer < offers[j].offer)
  }

  /** An entry of the catalog: an active product, its stock, and its offers, at least one and none twice. */
  ghost predicate EntryIs(db: Db, e: CatalogProduct) {
    && e.product < |db.products| && db.products[e.product].active
    && e.availableUnits == UnitsOf(db, e.product)
    && e.offers != [] && NoOfferTwice(e.offers) && StandardFirst(e.offers)
    && forall c :: c in e.offers ==> c.offer < |db.offers| && db.offers[c.offer].product == e.product
  }

  lemma {:induction false} BatchOffersOnce(db: Db, ks: seq<nat>, p: nat)
    requires AreBatchOffers(db, ks) && DistinctKeys(ks)
    ensures NoOfferTwice(BatchOffersOf(db, ks, p))
    ensures forall c :: c in BatchOffersOf(db, ks, p) ==> c.offer in ks && db.offers[c.offer].batch.Some? && db.offers[c.offer].product == p
  {
    hide OrderableUnits;
    if ks != [] {
      var n := |ks| - 1;
      BatchOffersOnce(db, ks[..n], p);
      var shorter := BatchOffersOf(db, ks[..n], p);
      assert ks == ks[..n] + [ks[n]];
      forall i | 0 <= i < |shorter| ensures shorter[i].offer != ks[n] {
        assert shorter[i] in shorter;
        assert shorter[i].offer in ks[..n];
        var j :| 0 <= j < n && ks[..n][j] == shorter[i].offer;
      }
    }
  }

  ghost predicate Increasing(ks: seq<nat>) {
    forall i, j :: 0 <= i < j < |ks| ==> ks[i] < ks[j]
  }

  lemma {:induction false} PricesInOrder(db: Db, candidates: set<nat>, n: nat)
    requires n <= |db.offers|
    ensures Increasing(BusinessPrices(db, candidates, n))
  {
    if n > 0 {
      PricesInOrder(db, candidates, n - 1);
      var before := BusinessPrices(db, candidates, n - 1);
      forall i | 0 <= i < |before| ensures before[i] < n - 1 {
        assert before[i] in before;
      }
    }
  }

  lemma {:induction false} CandidatesInOrder(db: Db, prices: seq<nat>)
    requires AreOffers(db, prices) && Increasing(prices)
    ensures Increasing(BatchCandidates(db, prices))
  {
    if prices != [] {
      var n := |prices| - 1;
      CandidatesInOrder(db, prices[..n]);
      var before := BatchCandidates(db, prices[..n]);
      forall i | 0 <= i < |before| ensures before[i] < prices[n] {
        assert before[i] in prices[..n];
        var m :| 0 <= m < n && prices[..n][m] == before[i];
        assert prices[m] < prices[n];
      }
    }
  }

  lemma {:induction false} BatchOffersInOrder(db: Db, ks: seq<nat>, p: nat)
    requires AreBatchOffers(db, ks) && Increasing(ks)
    ensures var offers := BatchOffersOf(db, ks, p);
            && StandardFirst(offers)
            && (forall i :: 0 <= i < |offers| ==> offers[i].kind == Batch && exists m :: 0 <= m < |ks| && ks[m] == offers[i].offer)
  {
    hide OrderableUnits;
    if ks != [] {
      var n := |ks| - 1;
      BatchOffersInOrder(db, ks[..n], p);
      var shorter := BatchOffersOf(db, ks[..n], p);
      forall i | 0 <= i < |shorter| ensures shorter[i].offer < ks[n] && exists m :: 0 <= m < |ks| && ks[m] == shorter[i].offer {
        var m :| 0 <= m < n && ks[..n][m] == shorter[i].offer;
        assert ks[m] == shorter[i].offer;
      }
    }
  }

  lemma ProductOffersInOrder(db: Db, std: nat, p: nat)
    requires std < |db.offers|
    ensures StandardFirst(OffersOfProduct(db, std, p))
  {
    hide QuantityByProduct, BatchOffersOf, BatchUnitsOf, BusinessPrices, BatchCandidates, Increasing;
    PricesInOrder(db, Candidates(QuantityByProduct(db)), |db.offers|);
    CandidatesInOrder(db, BusinessPrices(db, Candidates(QuantityByProduct(db)), |db.offers|));
    assert Increasing(CatalogBatchOffers(db));
    BatchOffersInOrder(db, CatalogBatchOffers(db), p);
  }

  lemma ProductOffersOnce(db: Db, std: nat, p: nat)
    requires OffersOk(db) && std < |db.offers| && db.offers[std].batch.None? && db.offers[std].product == p
    ensures NoOfferTwice(OffersOfProduct(db, std, p))
    ensures forall c :: c in OffersOfProduct(db, std, p) ==> c.offer < |db.offers| && db.offers[c.offer].product == p
  {
    hide QuantityByProduct, CatalogBatchOffers, BatchOffersOf, BatchUnitsOf, OffersOk;
    var ks := CatalogBatchOffers(db);
    CatalogBatchOffersAre(db, 0);
    BatchOffersOnce(db, ks, p);
    var offers := BatchOffersOf(db, ks, p);
    forall i | 0 <= i < |offers| ensures offers[i].offer != std {
      assert offers[i] in offers;
    }
    forall c | c in offers ensures c.offer < |db.offers| {
      var i :| 0 <= i < |ks| && ks[i] == c.offer;
    }
  }

  /** The entry that the loop builds for its product. */
  ghost predicate IsBuilt(db: Db, standards: map<nat, nat>, e: CatalogProduct) {
    && e.product in standards && standards[e.product] < |db.offers|
    && e == CatalogProduct(e.product, GetOrZero(QuantityByProduct(db), e.product), OffersOfProduct(db, standards[e.product], e.product))
    && e.offers != []
  }

  ghost predicate AllBuilt(db: Db, standards: map<nat, nat>, ps: seq<nat>, cat: seq<CatalogProduct>) {
    && (forall i :: 0 <= i < |cat| ==> cat[i].product in ps && IsBuilt(db, standards, cat[i]))
    && (forall i, j :: 0 <= i < j < |cat| ==> cat[i].product < cat[j].product)
  }

  lemma BuiltSnoc(db: Db, standards: map<nat, nat>, ps: seq<nat>, cat: seq<CatalogProduct>, e: CatalogProduct)
    requires AllBuilt(db, standards, ps, cat) && IsBuilt(db, standards, e)
    requires forall i :: 0 <= i < |ps| ==> ps[i] < e.product
    ensures AllBuilt(db, standards, ps + [e.product], cat + [e])
  {
    hide IsBuilt;
  }

  lemma {:induction false} EntriesAreBuilt(db: Db, standards: map<nat, nat>, ps: seq<nat>)
    requires forall i :: 0 <= i < |ps| ==> ps[i] in standards && standards[ps[i]] < |db.offers|
    requires forall i, j :: 0 <= i < j < |ps| ==> ps[i] < ps[j]
    ensures AllBuilt(db, standards, ps, Entries(db, QuantityByProduct(db), standards, CatalogBatchOffers(db), ps))
  {
    hide QuantityByProduct, CatalogBatchOffers, BatchOffersOf, BatchUnitsOf, OffersFor;
    if ps != [] {
      var n := |ps| - 1;
      var shorter := ps[..n];
      assert ps == shorter + [ps[n]];
      EntriesAreBuilt(db, standards, shorter);
      var before := Entries(db, QuantityByProduct(db), standards, CatalogBatchOffers(db), shorter);
      var e := CatalogProduct(ps[n], GetOrZero(QuantityByProduct(db), ps[n]), OffersOfProduct(db, standards[ps[n]], ps[n]));
      if e.offers != [] {
        BuiltSnoc(db, standards, shorter, before, e);
        assert Entries(db, QuantityByProduct(db), standards, CatalogBatchOffers(db), ps) == before + [e];
      } else {
        assert Entries(db, QuantityByProduct(db), standards, CatalogBatchOffers(db), ps) == before + [];
      }
    }
  }

  /** The catalog has one entry per product, in key order. */
  lemma EntriesAre(db: Db, i: nat)
    requires Inv(db) && CatalogSpec(db).Ok? && i < |CatalogSpec(db).value|
    ensures EntryIs(db, CatalogSpec(db).value[i])
    ensures forall j :: i < j < |CatalogSpec(db).value| ==> CatalogSpec(db).value[i].product < CatalogSpec(db).value[j].product
  {
    hide CatalogSpec, QuantityByProduct, CatalogBatchOffers, CatalogStandards, Entries, OffersOfProduct, UnitsOf, NoOfferTwice, StandardFirst,
         OffersOk, StockOk, OrdersOk, PaymentsOk, OneRowPerLineAndBatch, LinesOk, AllocationsOk, KeysOk;
    CatalogUnfolds(db);
    var ps, standards := CatalogListed(db), CatalogStandards(db);
    EntriesAreBuilt(db, standards, ps);
    var e := CatalogSpec(db).value[i];
    FiguresAre(db, e.product, 0);
    ProductOffersOnce(db, standards[e.product], e.product);
    ProductOffersInOrder(db, standards[e.product], e.product);
  }

  /** The catalog is refused exactly when an active product has stock that no row holds and no
      product-wide BUSINESS offer, not even a disabled one. */
  lemma RefusalIs(db: Db)
    requires Inv(db)
    ensures CatalogSpec(db).Err? <==>
              exists p: nat ::
                && p < |db.products| && db.products[p].active && UnitsOf(db, p) > 0
                && forall k :: 0 <= k < |db.offers| && db.offers[k].product == p && db.offers[k].channel == Business ==>
                     db.offers[k].batch != None
    ensures CatalogSpec(db).Err? ==> CatalogSpec(db).error == CatalogInvariantViolated
  {
    hide Inv, CatalogSpec, SumFree, OrderableOf, UnitsOf, IsStandardOf;
    CatalogFailsExactly(db);
    forall p: nat
      ensures MustBeListed(db, p) && (forall k: nat :: !IsStandardOf(db, k, p)) <==>
                && p < |db.products| && db.products[p].active && UnitsOf(db, p) > 0
                && forall k :: 0 <= k < |db.offers| && db.offers[k].product == p && db.offers[k].channel == Business ==>
                     db.offers[k].batch != None
    {
      MustBeListedIs(db, p);
      NoStandardIs(db, p);
    }
  }

  lemma MustBeListedIs(db: Db, p: nat)
    requires Inv(db)
    ensures MustBeListed(db, p) <==> p < |db.products| && db.products[p].active && UnitsOf(db, p) > 0
  {
    hide QuantityByProduct, SumFree, OrderableOf, UnitsOf, StockOk, Tables, OrdersOk, PaymentsOk, OneRowPerLineAndBatch;
    ProductTotalIsFree(db, p);
    FiguresAre(db, p, 0);
  }

  lemma NoStandardIs(db: Db, p: nat)
    ensures (forall k: nat :: !IsStandardOf(db, k, p)) <==>
              forall k :: 0 <= k < |db.offers| && db.offers[k].product == p && db.offers[k].channel == Business ==>
                db.offers[k].batch != None
  {
    if forall k: nat :: !IsStandardOf(db, k, p) {
      forall k | 0 <= k < |db.offers| && db.offers[k].product == p && db.offers[k].channel == Business
        ensures db.offers[k].batch != None
      {
        assert !IsStandardOf(db, k, p);
      }
    }
  }

  // ---------- The order form ----------

  lemma {:induction false} LineUnitsAre(lines: Lines, n: nat, o: nat, k: nat, f: nat -> int)
    requires forall l: nat :: l < n ==> f(l) == if l in lines && lines[l].order == o && lines[l].offer == k then lines[l].quantity else 0
    ensures LineUnitsBelow(lines, n, o, k) == Sum(n, f)
  {
    if n > 0 {
      LineUnitsAre(lines, n - 1, o, k, f);
    }
  }

  lemma LineUnitsAreAsked(db: Db, o: nat, k: nat)
    ensures LineUnits(db, o, k) == Asked(db, o, k)
  {
    LineUnitsAre(db.lines, db.nextLine, o, k,
                 (l: nat) => if l in db.lines && db.lines[l].order == o && db.lines[l].offer == k then db.lines[l].quantity else 0);
  }

  lemma EligibleIs(db: Db, k: nat)
    requires OfferKeysOk(db)
    ensures Eligible(db, k) <==> k < |db.offers| && OnSale(db, Business, k, db.offers[k].product)
  {
    assert k < |db.offers| ==> OfferOk(db, k);
  }

  /** The order has a line on the offer. */
  ghost predicate HasLineOn(db: Db, o: nat, k: nat) {
    exists l :: l in db.lines && db.lines[l].order == o && db.lines[l].offer == k
  }

  lemma FreeOfOffer(db: Db, k: nat)
    requires OfferKeysOk(db) && k < |db.offers|
    ensures OfferOk(db, k) && PoolUnits(db, k, EUR) == UnitsFree(db, k) >= 0
  {
    hide PoolUnits, UnitsFree;
    assert OfferOk(db, k);
    PoolUnitsIsSum(db, k);
  }

  /** The form offers what is on sale and has free units, with those units. For an order that left the
      draft stage it also offers what the order has lines on, and adds the order's own units. */
  lemma ChoicesAre(db: Db, order: Option<nat>, k: nat)
    requires Inv(db) && OfferKeysOk(db) && (order.Some? ==> order.value in db.orders) && ContextSpec(db, order).Ok?
    ensures var ctx := ContextSpec(db, order).value;
            var own := order.Some? && db.orders[order.value].status != Draft;
            && (k in ctx <==>
                  && k < |db.offers| && OnSale(db, Business, k, db.offers[k].product)
                  && (UnitsFree(db, k) > 0 || (own && HasLineOn(db, order.value, k))))
            && (k in ctx ==> ctx[k] == UnitsFree(db, k) + if own then Asked(db, order.value, k) else 0)
  {
    hide Inv, OnSale, CatalogSpec, CatalogFigures, Offered, Eligible, PoolUnits, LineUnits, Asked, UnitsFree, OfferKeysOk;
    OfferedIs(db, k);
    EligibleIs(db, k);
    if order.Some? && db.orders[order.value].status != Draft {
      ContextFigure(db, order.value, k);
      LineUnitsAreAsked(db, order.value, k);
      if k < |db.offers| {
        FreeOfOffer(db, k);
      }
    } else {
      CatalogFigureIs(db, k);
      EligibleOffers(db, k);
    }
  }
}
