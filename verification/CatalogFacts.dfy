/**
 The catalog's aggregate figures are the free units of the offers' own pools. They agree because no
 batch is oversold: without that, subtracting sums would not be summing differences.
 */
module CatalogFacts {
  import opened Common
  import opened Records
  import opened Pricing
  import opened ReservationFacts
  import opened Orders
  import opened Catalog

  // ---------- Sums of free units over sets of batches ----------

  function SumFree(db: Db, s: set<nat>, n: nat): nat
    requires n <= |db.batches|
  {
    if n == 0 then 0 else SumFree(db, s, n - 1) + (if n - 1 in s then FreeUnits(db, n - 1) else 0)
  }

  lemma {:induction false} SumFreeAdd(db: Db, s: set<nat>, x: nat, n: nat)
    requires n <= |db.batches| && x !in s
    ensures SumFree(db, s + {x}, n) == SumFree(db, s, n) + (if x < n then FreeUnits(db, x) else 0)
  {
    if n > 0 {
      SumFreeAdd(db, s, x, n - 1);
    }
  }

  lemma {:induction false} SumFreeSplit(db: Db, s: set<nat>, t: set<nat>, n: nat)
    requires n <= |db.batches| && t <= s
    ensures SumFree(db, s, n) == SumFree(db, t, n) + SumFree(db, s - t, n)
  {
    if n > 0 {
      SumFreeSplit(db, s, t, n - 1);
    }
  }

  lemma {:induction false} SumFreeEmpty(db: Db, n: nat)
    requires n <= |db.batches|
    ensures SumFree(db, {}, n) == 0
  {
    if n > 0 {
      SumFreeEmpty(db, n - 1);
    }
  }

  lemma {:induction false} PoolIsSum(db: Db, k: nat, s: set<nat>, n: nat)
    requires k < |db.offers| && OfferOk(db, k) && n <= |db.batches|
    requires forall b: nat :: b < n ==> (InPool(db, k, EUR, b) <==> b in s)
    ensures PoolUnitsBelow(db, k, EUR, n) == SumFree(db, s, n)
  {
    hide InPool, FreeUnits;
    if n > 0 {
      PoolIsSum(db, k, s, n - 1);
    }
  }

  // ---------- Product totals ----------

  function OrderableOf(db: Db, p: nat): set<nat> {
    set b | 0 <= b < |db.batches| && Orderable(db, b) && db.batches[b].product == p
  }

  lemma SumsSnoc(db: Db, rows: seq<(nat, nat)>, row: (nat, nat), p: nat)
    requires RowsInRange(db, rows) && row.0 < |db.batches|
    ensures PhysicalOver(db, rows + [row], p) == PhysicalOver(db, rows, p) + (if row.1 == p then db.batches[row.0].quantity else 0)
    ensures ReservedOver(db, rows + [row], p) == ReservedOver(db, rows, p) + (if row.1 == p then ActiveReserved(db, row.0) else 0)
  {
    assert (rows + [row])[..|rows|] == rows;
  }

  lemma {:induction false} TotalsAreFree(db: Db, p: nat, n: nat)
    requires StockOk(db) && n <= |db.batches|
    ensures PhysicalOver(db, OrderableRows(db, n), p) == SumFree(db, OrderableOf(db, p), n) + ReservedOver(db, OrderableRows(db, n), p)
  {
    hide Orderable, PhysicalOver, ReservedOver;
    if n == 0 {
      NoSums(db, p);
    } else {
      TotalsAreFree(db, p, n - 1);
      var rows := OrderableRows(db, n - 1);
      var row := (n - 1, db.batches[n - 1].product);
      SumsSnoc(db, rows, row, p);
      assert BatchOk(db, n - 1);
      assert OrderableRows(db, n) == if Orderable(db, n - 1) then rows + [row] else rows;
    }
  }

  lemma NoSums(db: Db, p: nat)
    ensures PhysicalOver(db, [], p) == 0 && ReservedOver(db, [], p) == 0
  {
  }

  lemma {:induction false} NoRowsNoStock(db: Db, rows: seq<(nat, nat)>, p: nat)
    requires RowsInRange(db, rows) && p !in ProductsOf(rows)
    ensures PhysicalOver(db, rows, p) == 0
  {
    if rows != [] {
      var shorter := rows[..|rows| - 1];
      assert forall i :: 0 <= i < |rows| ==> rows[i].1 in ProductsOf(rows);
      forall q | q in ProductsOf(shorter) ensures q in ProductsOf(rows) {
        var i :| 0 <= i < |shorter| && shorter[i].1 == q;
        assert rows[i].1 == q;
      }
      NoRowsNoStock(db, shorter, p);
    }
  }

  /** The product total, computed from two grouped sums, is the free units of its orderable batches. */
  lemma ProductTotalIsFree(db: Db, p: nat)
    requires StockOk(db)
    ensures GetOrZero(QuantityByProduct(db), p) == SumFree(db, OrderableOf(db, p), |db.batches|)
  {
    TotalsAreFree(db, p, |db.batches|);
    if p !in QuantityByProduct(db) {
      NoRowsNoStock(db, OrderableRows(db, |db.batches|), p);
    }
  }

  // ---------- Batch offers ----------

  ghost predicate DistinctKeys(ks: seq<nat>) {
    forall i, j :: 0 <= i < j < |ks| ==> ks[i] != ks[j]
  }

  lemma {:induction false} PricesDistinct(db: Db, candidates: set<nat>, n: nat)
    requires n <= |db.offers|
    ensures DistinctKeys(BusinessPrices(db, candidates, n))
  {
    if n > 0 {
      PricesDistinct(db, candidates, n - 1);
      var shorter := BusinessPrices(db, candidates, n - 1);
      forall i | 0 <= i < |shorter| ensures shorter[i] != n - 1 {
        assert shorter[i] in shorter;
      }
    }
  }

  lemma {:induction false} CandidateKeys(db: Db, prices: seq<nat>)
    requires AreOffers(db, prices)
    ensures forall k: nat :: k in BatchCandidates(db, prices) <==> k in prices && k < |db.offers| && IsBatchCandidate(db.offers[k])
    ensures DistinctKeys(prices) ==> DistinctKeys(BatchCandidates(db, prices))
  {
    if prices != [] {
      var n := |prices| - 1;
      assert prices == prices[..n] + [prices[n]];
      CandidateKeys(db, prices[..n]);
      var shorter := BatchCandidates(db, prices[..n]);
      if DistinctKeys(prices) {
        forall i | 0 <= i < |shorter| ensures shorter[i] != prices[n] {
          assert shorter[i] in prices[..n];
          var j :| 0 <= j < n && prices[j] == shorter[i];
        }
      }
    }
  }

  /** The orderable batches that the given batch offers of a product sell. */
  function ClaimedOf(db: Db, ks: seq<nat>, p: nat): set<nat>
    requires AreBatchOffers(db, ks)
  {
    set i | 0 <= i < |ks| && db.offers[ks[i]].product == p && db.offers[ks[i]].batch.value in OrderableOf(db, p)
      :: db.offers[ks[i]].batch.value
  }

  lemma ClaimedSnoc(db: Db, ks: seq<nat>, p: nat)
    requires AreBatchOffers(db, ks) && ks != []
    ensures var k := ks[|ks| - 1];
            ClaimedOf(db, ks, p) == ClaimedOf(db, ks[..|ks| - 1], p)
            + (if db.offers[k].product == p && db.offers[k].batch.value in OrderableOf(db, p) then {db.offers[k].batch.value} else {})
  {
    var shorter := ks[..|ks| - 1];
    forall b | b in ClaimedOf(db, ks, p) && b !in ClaimedOf(db, shorter, p) ensures b == db.offers[ks[|ks| - 1]].batch.value {
      var i :| 0 <= i < |ks| && db.offers[ks[i]].product == p && db.offers[ks[i]].batch.value == b && b in OrderableOf(db, p);
    }
    forall b | b in ClaimedOf(db, shorter, p) ensures b in ClaimedOf(db, ks, p) {
      var i :| 0 <= i < |shorter| && db.offers[shorter[i]].product == p && db.offers[shorter[i]].batch.value == b && b in OrderableOf(db, p);
      assert ks[i] == shorter[i];
    }
  }

  /** BUSINESS batch offers, one per batch. */
  ghost predicate OneOfferPerBatch(db: Db, ks: seq<nat>)
    requires AreBatchOffers(db, ks)
  {
    forall i, j :: 0 <= i < j < |ks| ==> db.offers[ks[i]].batch != db.offers[ks[j]].batch
  }

  lemma BatchesDiffer(db: Db, ks: seq<nat>)
    requires OffersOk(db) && AreBatchOffers(db, ks) && DistinctKeys(ks)
    requires forall i :: 0 <= i < |ks| ==> db.offers[ks[i]].channel.Business?
    ensures OneOfferPerBatch(db, ks)
  {
    forall i, j | 0 <= i < j < |ks| ensures db.offers[ks[i]].batch != db.offers[ks[j]].batch {
      var lo, hi := if ks[i] < ks[j] then ks[i] else ks[j], if ks[i] < ks[j] then ks[j] else ks[i];
      assert ks[i] != ks[j];
      assert !SameScope(db.offers[lo], db.offers[hi]);
    }
  }

  /** Batch-offer units are the free units of exactly the batches those offers sell. */
  lemma {:induction false} BatchUnitsAreClaimed(db: Db, ks: seq<nat>, p: nat)
    requires OffersOk(db) && AreBatchOffers(db, ks) && OneOfferPerBatch(db, ks)
    ensures BatchUnitsOf(db, ks, p) == SumFree(db, ClaimedOf(db, ks, p), |db.batches|)
  {
    hide Orderable, FreeUnits, OffersOk, SumFree;
    if ks == [] {
      SumFreeEmpty(db, |db.batches|);
      assert ClaimedOf(db, ks, p) == {};
    } else {
      hide OrderableOf;
      var n := |ks| - 1;
      var b := db.offers[ks[n]].batch.value;
      BatchUnitsAreClaimed(db, ks[..n], p);
      ClaimedSnoc(db, ks, p);
      if db.offers[ks[n]].product == p {
        OwnUnits(db, ks[n], p);
      }
      if db.offers[ks[n]].product == p && b in OrderableOf(db, p) {
        assert b !in ClaimedOf(db, ks[..n], p);
        SumFreeAdd(db, ClaimedOf(db, ks[..n], p), b, |db.batches|);
      }
      assert ClaimedOf(db, ks[..n], p) + {} == ClaimedOf(db, ks[..n], p);
    }
  }

  lemma OwnUnits(db: Db, k: nat, p: nat)
    requires OffersOk(db) && k < |db.offers| && db.offers[k].batch.Some? && db.offers[k].product == p
    ensures OfferOk(db, k) && db.offers[k].batch.value < |db.batches|
    ensures UnitsOfBatchOffer(db, k)
         == if db.offers[k].batch.value in OrderableOf(db, p) then FreeUnits(db, db.offers[k].batch.value) else 0
  {
    assert OfferOk(db, k);
  }

  // ---------- The figures ----------

  /** The batch offers the catalog considers. */
  function CatalogBatchOffers(db: Db): (ks: seq<nat>)
    ensures AreBatchOffers(db, ks)
  {
    BatchCandidates(db, BusinessPrices(db, Candidates(QuantityByProduct(db)), |db.offers|))
  }

  lemma CatalogBatchOffersAre(db: Db, k: nat)
    requires OffersOk(db)
    ensures k in CatalogBatchOffers(db) <==>
              && k < |db.offers| && db.offers[k].channel.Business? && IsBatchCandidate(db.offers[k])
              && db.offers[k].product in Candidates(QuantityByProduct(db))
    ensures DistinctKeys(CatalogBatchOffers(db)) && OneOfferPerBatch(db, CatalogBatchOffers(db))
  {
    hide QuantityByProduct, OffersOk;
    var prices := BusinessPrices(db, Candidates(QuantityByProduct(db)), |db.offers|);
    var ks := CatalogBatchOffers(db);
    PricesDistinct(db, Candidates(QuantityByProduct(db)), |db.offers|);
    CandidateKeys(db, prices);
    forall i | 0 <= i < |ks| ensures db.offers[ks[i]].channel.Business? {
      assert ks[i] in ks;
    }
    BatchesDiffer(db, ks);
  }

  /** For a candidate product, the claimed batches are those that have their own sellable offer. */
  lemma ClaimedAreClaimed(db: Db, p: nat, b: nat)
    requires OffersOk(db) && p in Candidates(QuantityByProduct(db))
    ensures b in ClaimedOf(db, CatalogBatchOffers(db), p) <==>
              b in OrderableOf(db, p) && ClaimedByBatchOffer(db, Business, EUR, b)
  {
    hide QuantityByProduct, CatalogBatchOffers, OrderableOf;
    var ks := CatalogBatchOffers(db);
    if b in ClaimedOf(db, ks, p) {
      var i :| 0 <= i < |ks| && db.offers[ks[i]].product == p && db.offers[ks[i]].batch.value == b && b in OrderableOf(db, p);
      CatalogBatchOffersAre(db, ks[i]);
      assert ks[i] in ks;
      assert Claims(db.offers[ks[i]], Business, EUR, b);
    }
    if b in OrderableOf(db, p) && ClaimedByBatchOffer(db, Business, EUR, b) {
      var k :| 0 <= k < |db.offers| && Claims(db.offers[k], Business, EUR, b);
      OrderableProduct(db, p, b);
      assert OfferOk(db, k);
      CatalogBatchOffersAre(db, k);
      var i :| 0 <= i < |ks| && ks[i] == k;
      assert db.offers[ks[i]].batch.value == b;
    }
  }

  lemma OrderableProduct(db: Db, p: nat, b: nat)
    requires b in OrderableOf(db, p)
    ensures b < |db.batches| && db.batches[b].product == p
  {
  }

  /** "Product total minus batch-offer units" is the sum of physical minus reserved units over exactly
      the standard offer's pool. */
  lemma StandardFigureIsPoolUnits(db: Db, std: nat)
    requires OffersOk(db) && StockOk(db) && std < |db.offers| && OfferOk(db, std)
    requires db.offers[std].channel.Business? && db.offers[std].batch.None? && Sellable(db, std, EUR)
    requires db.offers[std].product in Candidates(QuantityByProduct(db))
    ensures var p := db.offers[std].product;
            StandardUnits(GetOrZero(QuantityByProduct(db), p), BatchUnitsOf(db, CatalogBatchOffers(db), p)) == PoolUnits(db, std, EUR)
  {
    hide QuantityByProduct, CatalogBatchOffers, OffersOk, StockOk, BatchUnitsOf, SumFree, ClaimedOf, FreeUnits;
    var p := db.offers[std].product;
    var ks := CatalogBatchOffers(db);
    var all, claimed := OrderableOf(db, p), ClaimedOf(db, ks, p);
    ProductTotalIsFree(db, p);
    CatalogBatchOffersAre(db, 0);
    BatchUnitsAreClaimed(db, ks, p);
    forall b: nat ensures b in claimed <==> b in all && ClaimedByBatchOffer(db, Business, EUR, b) {
      ClaimedAreClaimed(db, p, b);
    }
    assert claimed <= all;
    SumFreeSplit(db, all, claimed, |db.batches|);
    PoolIsSum(db, std, all - claimed, |db.batches|);
  }

  /** A batch offer's figure is the free units of its own pool. */
  lemma BatchFigureIsPoolUnits(db: Db, k: nat)
    requires OffersOk(db) && k < |db.offers| && OfferOk(db, k) && db.offers[k].batch.Some? && Sellable(db, k, EUR)
    ensures UnitsOfBatchOffer(db, k) == PoolUnits(db, k, EUR)
  {
    hide FreeUnits, Orderable, OffersOk;
    var b := db.offers[k].batch.value;
    var s := if Orderable(db, b) then {b} else {};
    PoolIsSum(db, k, s, |db.batches|);
    SumFreeEmpty(db, |db.batches|);
    SumFreeAdd(db, {}, b, |db.batches|);
    assert {} + {b} == {b};
  }

  // ---------- What the catalog lists ----------

  ghost predicate IsListed(cat: seq<CatalogProduct>, c: CatalogOffer) {
    exists i :: 0 <= i < |cat| && c in cat[i].offers
  }

  /** The offers entry of one listed product. */
  function OffersOfProduct(db: Db, std: nat, p: nat): seq<CatalogOffer>
    requires std < |db.offers|
  {
    OffersFor(db, std, GetOrZero(QuantityByProduct(db), p), BatchUnitsOf(db, CatalogBatchOffers(db), p),
              BatchOffersOf(db, CatalogBatchOffers(db), p))
  }

  lemma IsListedSnoc(cat: seq<CatalogProduct>, entry: CatalogProduct, c: CatalogOffer)
    ensures IsListed(cat + [entry], c) <==> IsListed(cat, c) || c in entry.offers
  {
    if IsListed(cat, c) {
      var i :| 0 <= i < |cat| && c in cat[i].offers;
      assert (cat + [entry])[i] == cat[i];
    }
    assert (cat + [entry])[|cat|] == entry;
  }

  lemma {:induction false} EntriesList(db: Db, standards: map<nat, nat>, ps: seq<nat>, c: CatalogOffer)
    requires forall i :: 0 <= i < |ps| ==> ps[i] in standards && standards[ps[i]] < |db.offers|
    ensures IsListed(Entries(db, QuantityByProduct(db), standards, CatalogBatchOffers(db), ps), c) <==>
              exists i :: 0 <= i < |ps| && c in OffersOfProduct(db, standards[ps[i]], ps[i])
  {
    hide QuantityByProduct, CatalogBatchOffers, BatchOffersOf, BatchUnitsOf, OffersFor, IsListed;
    if ps == [] {
      NothingIsListed(c);
    } else {
      var n := |ps| - 1;
      EntriesList(db, standards, ps[..n], c);
      var before := Entries(db, QuantityByProduct(db), standards, CatalogBatchOffers(db), ps[..n]);
      var offers := OffersOfProduct(db, standards[ps[n]], ps[n]);
      IsListedSnoc(before, CatalogProduct(ps[n], GetOrZero(QuantityByProduct(db), ps[n]), offers), c);
      assert before + [] == before;
      if i :| 0 <= i < n && c in OffersOfProduct(db, standards[ps[..n][i]], ps[..n][i]) {
        assert ps[i] == ps[..n][i];
      }
      if i :| 0 <= i < |ps| && c in OffersOfProduct(db, standards[ps[i]], ps[i]) {
        assert i < n ==> ps[..n][i] == ps[i];
      }
    }
  }

  lemma NothingIsListed(c: CatalogOffer)
    ensures !IsListed([], c)
  {
  }

  lemma {:induction false} BatchOffersMember(db: Db, ks: seq<nat>, p: nat, c: CatalogOffer)
    requires AreBatchOffers(db, ks)
    ensures c in BatchOffersOf(db, ks, p) <==>
              exists i :: 0 <= i < |ks| && db.offers[ks[i]].product == p && UnitsOfBatchOffer(db, ks[i]) > 0 && c == BatchOffer(db, ks[i])
  {
    hide OrderableUnits;
    if ks != [] {
      var n := |ks| - 1;
      BatchOffersMember(db, ks[..n], p, c);
      if i :| 0 <= i < n && db.offers[ks[..n][i]].product == p && UnitsOfBatchOffer(db, ks[..n][i]) > 0 && c == BatchOffer(db, ks[..n][i]) {
        assert ks[i] == ks[..n][i];
      }
      if i :| 0 <= i < |ks| && db.offers[ks[i]].product == p && UnitsOfBatchOffer(db, ks[i]) > 0 && c == BatchOffer(db, ks[i]) {
        assert i < n ==> ks[..n][i] == ks[i];
      }
    }
  }
}
